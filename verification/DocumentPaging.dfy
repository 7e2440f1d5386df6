/**
  App documents (src/orcheo/hosted_apps/data.py): writes with optimistic versions and a
  record limit, and listing in pages chained by an opaque cursor. A key is the sequence of
  its UTF-8 bytes, whose lexicographic order is the order of the texts.
 */
module DocumentPaging {
  import opened Common
  import opened CursorCodec
  import Json = InputSchema

  type Id = nat
  type Key = Bytes

  // ---------------------------------------------------------------- the order of keys

  predicate Less(a: Key, b: Key) {
    if b == [] then false
    else if a == [] then true
    else a[0] < b[0] || (a[0] == b[0] && Less(a[1..], b[1..]))
  }

  lemma {:induction false} NotBelowItself(a: Key)
    ensures !Less(a, a)
  {
    if a != [] { NotBelowItself(a[1..]); }
  }

  lemma {:induction false} LessIsTotal(a: Key, b: Key)
    ensures a == b || Less(a, b) || Less(b, a)
    ensures !(Less(a, b) && Less(b, a))
  {
    if a != [] && b != [] {
      LessIsTotal(a[1..], b[1..]);
      assert a == [a[0]] + a[1..] && b == [b[0]] + b[1..];
    }
  }

  lemma {:induction false} LessIsTransitive(a: Key, b: Key, c: Key)
    requires Less(a, b) && Less(b, c)
    ensures Less(a, c)
  {
    if a != [] { if a[0] == b[0] == c[0] { LessIsTransitive(a[1..], b[1..], c[1..]); } }
  }

  // ---------------------------------------------------------------- one page

  ghost predicate Ascending(keys: seq<Key>) {
    forall i, j :: 0 <= i < j < |keys| ==> Less(keys[i], keys[j])
  }

  /** Keys after the cursor's, in order: the part of the sorted scope the page is cut from. */
  function Following(keys: seq<Key>, after: Option<Key>): seq<Key> {
    if keys == [] then []
    else if after.None? || Less(after.value, keys[0]) then [keys[0]] + Following(keys[1..], after)
    else Following(keys[1..], after)
  }

  /** `cursor` is tested for truth before it is decoded, so an empty text counts as none. */
  function StartAfter(cursor: Option<string>): Option<Option<Key>> {
    if cursor.None? || cursor.value == "" then Some(None)
    else match DecodeCursor(cursor.value)
      case None => None
      case Some(key) => Some(Some(key))
  }

  datatype Page = Page(keys: seq<Key>, next: Option<string>) | InvalidCursor

  function Take(keys: seq<Key>, limit: nat): seq<Key> { if |keys| <= limit then keys else keys[..limit] }

  /** One call of `list` on a scope whose keys, sorted, are `keys`. */
  function ListPage(keys: seq<Key>, cursor: Option<string>, limit: nat): Page
    requires limit > 0
  {
    match StartAfter(cursor)
    case None => InvalidCursor
    case Some(after) =>
      var entries := Following(keys, after);
      var page := Take(entries, limit);
      Page(page, if |entries| > limit then Some(EncodeCursor(page[|page| - 1])) else None)
  }

  /** Follow `next` from a cursor, for at most `calls` calls; `None` if that was not enough or a cursor was refused. */
  function Walk(keys: seq<Key>, cursor: Option<string>, limit: nat, calls: nat): Option<seq<Key>>
    requires limit > 0
    decreases calls
  {
    if calls == 0 then None
    else match ListPage(keys, cursor, limit)
      case InvalidCursor => None
      case Page(page, next) =>
        if next.None? then Some(page)
        else match Walk(keys, next, limit, calls - 1)
          case None => None
          case Some(rest) => Some(page + rest)
  }

  // ---------------------------------------------------------------- every record once

  lemma {:induction false} FollowingAll(keys: seq<Key>)
    ensures Following(keys, None) == keys
  {
    if keys != [] { FollowingAll(keys[1..]); }
  }

  /** After the i-th key come exactly the keys behind it. */
  lemma {:induction false} FollowingSuffix(keys: seq<Key>, i: nat)
    requires Ascending(keys) && i < |keys|
    ensures Following(keys, Some(keys[i])) == keys[i + 1..]
    decreases |keys|
  {
    assert forall j :: 0 <= j < |keys| - 1 ==> keys[1..][j] == keys[j + 1];
    if i == 0 {
      NotBelowItself(keys[0]);
      AllAfter(keys[1..], keys[0]);
    } else {
      LessIsTotal(keys[0], keys[i]);
      FollowingSuffix(keys[1..], i - 1);
      assert keys[1..][i - 1] == keys[i] && keys[1..][i..] == keys[i + 1..];
    }
  }

  lemma {:induction false} AllAfter(keys: seq<Key>, after: Key)
    requires forall j :: 0 <= j < |keys| ==> Less(after, keys[j])
    ensures Following(keys, Some(after)) == keys
  {
    if keys != [] {
      AllAfter(keys[1..], after);
      assert keys == [keys[0]] + keys[1..];
    }
  }

  ghost predicate NonEmptyKeys(keys: seq<Key>) { forall i :: 0 <= i < |keys| ==> keys[i] != [] }

  /** The cursor that stands for the first `i` keys. */
  function CursorAt(keys: seq<Key>, i: nat): Option<string>
    requires i <= |keys|
  {
    if i == 0 then None else Some(EncodeCursor(keys[i - 1]))
  }

  lemma EntriesAt(keys: seq<Key>, i: nat)
    requires Ascending(keys) && NonEmptyKeys(keys) && i <= |keys|
    ensures StartAfter(CursorAt(keys, i)).Some? && Following(keys, StartAfter(CursorAt(keys, i)).value) == keys[i..]
  {
    hide *;
    StartAt(keys, i);
    if i == 0 {
      FollowingAll(keys);
      assert keys[0..] == keys;
    } else {
      FollowingSuffix(keys, i - 1);
    }
  }

  /** Decoding the cursor of the i-th key gives that key. */
  lemma StartAt(keys: seq<Key>, i: nat)
    requires NonEmptyKeys(keys) && i <= |keys|
    ensures StartAfter(CursorAt(keys, i)) == Some(if i == 0 then None else Some(keys[i - 1]))
  {
    if i > 0 {
      CursorRoundTrip(keys[i - 1]);
      hide EncodeCursor, DecodeCursor;
    }
  }

  /** The page at that cursor is the next `limit` keys. */
  lemma PageAt(keys: seq<Key>, i: nat, limit: nat)
    requires Ascending(keys) && NonEmptyKeys(keys) && i <= |keys| && limit > 0
    ensures ListPage(keys, CursorAt(keys, i), limit) ==
            if |keys| - i <= limit then Page(keys[i..], None) else Page(keys[i..i + limit], CursorAt(keys, i + limit))
  {
    hide EncodeCursor, Following, Ascending, StartAfter, NonEmptyKeys;
    EntriesAt(keys, i);
    if |keys| - i > limit {
      assert keys[i..][..limit] == keys[i..i + limit];
      assert keys[i..i + limit][limit - 1] == keys[i + limit - 1];
    }
  }

  lemma WalkStep(keys: seq<Key>, cursor: Option<string>, limit: nat, calls: nat, page: seq<Key>, next: Option<string>, rest: seq<Key>)
    requires limit > 0 && calls > 0 && ListPage(keys, cursor, limit) == Page(page, next)
    requires next.Some? ==> Walk(keys, next, limit, calls - 1) == Some(rest)
    ensures Walk(keys, cursor, limit, calls) == Some(if next.Some? then page + rest else page)
  {
    hide ListPage;
  }

  lemma WalkMore(keys: seq<Key>, i: nat, limit: nat, calls: nat)
    requires Ascending(keys) && NonEmptyKeys(keys) && limit > 0 && i + limit < |keys| && calls > 0
    requires Walk(keys, CursorAt(keys, i + limit), limit, calls - 1) == Some(keys[i + limit..])
    ensures Walk(keys, CursorAt(keys, i), limit, calls) == Some(keys[i..])
  {
    hide *;
    PageAt(keys, i, limit);
    CursorIsThere(keys, i + limit);
    SplitAt(keys, i, limit);
    WalkStep(keys, CursorAt(keys, i), limit, calls, keys[i..i + limit], CursorAt(keys, i + limit), keys[i + limit..]);
  }

  lemma SplitAt(keys: seq<Key>, i: nat, limit: nat)
    requires i + limit <= |keys|
    ensures keys[i..] == keys[i..i + limit] + keys[i + limit..]
  {
  }

  lemma WalkEnds(keys: seq<Key>, i: nat, limit: nat, calls: nat)
    requires Ascending(keys) && NonEmptyKeys(keys) && limit > 0 && i <= |keys| <= i + limit && calls > 0
    ensures Walk(keys, CursorAt(keys, i), limit, calls) == Some(keys[i..])
  {
    PageAt(keys, i, limit);
    hide *;
    WalkStep(keys, CursorAt(keys, i), limit, calls, keys[i..], None, []);
  }

  /** From there the walk yields the keys behind the cursor. */
  lemma {:induction false} WalkFrom(keys: seq<Key>, i: nat, limit: nat, calls: nat)
    requires Ascending(keys) && NonEmptyKeys(keys) && limit > 0 && i <= |keys| && calls > |keys| - i
    ensures Walk(keys, CursorAt(keys, i), limit, calls) == Some(keys[i..])
    decreases calls
  {
    hide *;
    if i + limit < |keys| {
      WalkFrom(keys, i + limit, limit, calls - 1);
      WalkMore(keys, i, limit, calls);
    } else {
      WalkEnds(keys, i, limit, calls);
    }
  }

  lemma CursorIsThere(keys: seq<Key>, i: nat)
    requires 0 < i <= |keys|
    ensures CursorAt(keys, i).Some?
  {
  }

  /**
    Following `next_cursor` from the start, with any page size of at least one, ends after at
    most one call more than there are records and yields every record of the scope once, in
    key order.
   */
  lemma PagingListsEverything(keys: seq<Key>, limit: nat)
    requires Ascending(keys) && NonEmptyKeys(keys) && limit > 0
    ensures Walk(keys, None, limit, |keys| + 1) == Some(keys)
  {
    WalkFrom(keys, 0, limit, |keys| + 1);
    assert keys[0..] == keys;
  }

  /** The chain needs non-empty keys: the cursor of a key leads behind that key exactly when the key is not empty, and starts over otherwise. */
  lemma EmptyKeyStartsOver(key: Key)
    ensures StartAfter(Some(EncodeCursor(key))) == Some(if key == [] then None else Some(key))
    ensures key == [] ==> StartAfter(Some(EncodeCursor(key))) == StartAfter(None)
  {
    CursorRoundTrip(key);
    if key == [] { assert EncodePadded([]) == "" && Strip("") == ""; }
    hide DecodeCursor;
  }

  // ---------------------------------------------------------------- documents

  datatype Scope = Scope(app: Id, collection: Id, owner: string)
  datatype RecordKey = RecordKey(scope: Scope, key: Key)
  datatype Record = Record(id: Id, size: nat, version: nat)

  datatype Outcome = Stored(version: nat) | Conflict | LimitReached | Removed | Absent

  type Records = map<RecordKey, Record>

  function InScope(records: Records, scope: Scope): set<RecordKey> { set k | k in records && k.scope == scope }

  predicate Stale(records: Records, k: RecordKey, expected: Option<nat>) {
    expected.Some? && (k !in records || records[k].version != expected.value)
  }

  function Put(records: Records, k: RecordKey, id: Id, size: nat, expected: Option<nat>, max: nat): (Records, Outcome) {
    if Stale(records, k, expected) then (records, Conflict)
    else if k in records then
      (records[k := Record(records[k].id, size, records[k].version + 1)], Stored(records[k].version + 1))
    else if |InScope(records, k.scope)| >= max then (records, LimitReached)
    else (records[k := Record(id, size, 1)], Stored(1))
  }

  function Delete(records: Records, k: RecordKey, expected: Option<nat>): (Records, Outcome) {
    if k !in records then (records, Absent)
    else if expected.Some? && records[k].version != expected.value then (records, Conflict)
    else (records - {k}, Removed)
  }

  datatype Action =
    | DoPut(k: RecordKey, id: Id, size: nat, expected: Option<nat>)
    | DoDelete(k: RecordKey, expected: Option<nat>)

  function Step(records: Records, a: Action, limits: Id -> nat): (Records, Outcome) {
    match a
    case DoPut(k, id, size, expected) => Put(records, k, id, size, expected, limits(k.scope.collection))
    case DoDelete(k, expected) => Delete(records, k, expected)
  }

  function After(records: Records, actions: seq<Action>, limits: Id -> nat): Records
    decreases |actions|
  {
    if actions == [] then records else After(Step(records, actions[0], limits).0, actions[1..], limits)
  }

  ghost predicate WithinLimit(records: Records, limits: Id -> nat) {
    forall scope :: |InScope(records, scope)| <= limits(scope.collection)
  }

  lemma StepKeepsLimit(records: Records, a: Action, limits: Id -> nat)
    requires WithinLimit(records, limits)
    ensures WithinLimit(Step(records, a, limits).0, limits)
  {
    var records' := Step(records, a, limits).0;
    forall scope ensures |InScope(records', scope)| <= limits(scope.collection) { ScopeKeepsLimit(records, a, limits, scope); }
    hide InScope, Step;
  }

  lemma ScopeKeepsLimit(records: Records, a: Action, limits: Id -> nat, scope: Scope)
    requires |InScope(records, scope)| <= limits(scope.collection)
    ensures |InScope(Step(records, a, limits).0, scope)| <= limits(scope.collection)
  {
    var records' := Step(records, a, limits).0;
    if a.DoPut? && a.k !in records && a.k in records' && scope == a.k.scope {
      assert InScope(records', scope) == InScope(records, scope) + {a.k};
    } else {
      assert forall k :: k in InScope(records', scope) ==> k in InScope(records, scope);
      SubsetCard(InScope(records', scope), InScope(records, scope));
    }
  }

  /** No owner ever holds more records of a collection than that collection's limit. */
  lemma {:induction false} LimitHolds(records: Records, actions: seq<Action>, limits: Id -> nat)
    requires WithinLimit(records, limits)
    ensures WithinLimit(After(records, actions, limits), limits)
    decreases |actions|
  {
    if actions != [] {
      StepKeepsLimit(records, actions[0], limits);
      hide WithinLimit, Step;
      LimitHolds(Step(records, actions[0], limits).0, actions[1..], limits);
    }
  }

  predicate Overtaken(records: Records, k: RecordKey, version: nat) { k in records && records[k].version > version }

  /** How many writes of `k` that expect `version` succeed in a run. */
  function Winners(records: Records, actions: seq<Action>, limits: Id -> nat, k: RecordKey, version: nat): nat
    decreases |actions|
  {
    if actions == [] then 0
    else
      var (next, outcome) := Step(records, actions[0], limits);
      (if actions[0].DoPut? && actions[0].k == k && actions[0].expected == Some(version) && outcome.Stored? then 1 else 0) +
      Winners(next, actions[1..], limits, k, version)
  }

  /** How often a run removes `k`. */
  function Removals(records: Records, actions: seq<Action>, limits: Id -> nat, k: RecordKey): nat
    decreases |actions|
  {
    if actions == [] then 0
    else
      var (next, outcome) := Step(records, actions[0], limits);
      (if actions[0].k == k && outcome.Removed? then 1 else 0) + Removals(next, actions[1..], limits, k)
  }

  /** Among writers that expect the same version of a document at most one wins, and one more each time the document is removed. */
  lemma {:induction false} OneWriterPerVersion(records: Records, actions: seq<Action>, limits: Id -> nat, k: RecordKey, version: nat)
    ensures Winners(records, actions, limits, k, version) <=
            (if Overtaken(records, k, version) then 0 else 1) + Removals(records, actions, limits, k)
    decreases |actions|
  {
    if actions != [] {
      OneWriterPerVersion(Step(records, actions[0], limits).0, actions[1..], limits, k, version);
    }
  }

  /** A document that is removed and created again starts over at version 1, where a second writer wins. */
  lemma SecondWinnerAfterRemoval(limits: Id -> nat, k: RecordKey, a: Id, b: Id, size: nat)
    requires limits(k.scope.collection) > 0
    ensures var actions := [DoPut(k, a, size, None), DoPut(k, a, size, Some(1)), DoDelete(k, None),
                            DoPut(k, b, size, None), DoPut(k, b, size, Some(1))];
            Winners(map[], actions, limits, k, 1) == 2
  {
    var actions := [DoPut(k, a, size, None), DoPut(k, a, size, Some(1)), DoDelete(k, None),
                    DoPut(k, b, size, None), DoPut(k, b, size, Some(1))];
    SecondWriterWins(limits, k, a, size);
    SecondWriterWins(limits, k, b, size);
    assert map[k := Record(a, size, 2)] - {k} == map[];
    assert Step(map[k := Record(a, size, 2)], actions[2], limits) == (map[], Removed);
    hide Step;
    assert actions[1..] == [actions[1], actions[2], actions[3], actions[4]];
    assert actions[1..][1..] == [actions[2], actions[3], actions[4]];
    assert actions[1..][1..][1..] == [actions[3], actions[4]];
    assert [actions[3], actions[4]][1..] == [actions[4]];
    assert Winners(map[k := Record(b, size, 1)], [actions[4]], limits, k, 1) == 1;
    assert Winners(map[], [actions[3], actions[4]], limits, k, 1) == 1;
    assert Winners(map[k := Record(a, size, 2)], actions[1..][1..], limits, k, 1) == 1;
    assert Winners(map[k := Record(a, size, 1)], actions[1..], limits, k, 1) == 2;
  }

  /** Created in an empty collection, then written by one who expects version 1. */
  lemma SecondWriterWins(limits: Id -> nat, k: RecordKey, id: Id, size: nat)
    requires limits(k.scope.collection) > 0
    ensures Step(map[], DoPut(k, id, size, None), limits) == (map[k := Record(id, size, 1)], Stored(1))
    ensures Step(map[k := Record(id, size, 1)], DoPut(k, id, size, Some(1)), limits) == (map[k := Record(id, size, 2)], Stored(2))
  {
    assert InScope(map[], k.scope) == {};
    assert map[k := Record(id, size, 1)][k := Record(id, size, 2)] == map[k := Record(id, size, 2)];
  }

  /** Each put brings an id of its own. */
  ghost predicate FreshIds(actions: seq<Action>, used: set<Id>)
    decreases |actions|
  {
    actions != [] ==>
      && (actions[0].DoPut? ==> actions[0].id !in used)
      && FreshIds(actions[1..], used + NewId(actions[0]))
  }

  function NewId(a: Action): set<Id> { if a.DoPut? then {a.id} else {} }

  ghost predicate IdsOk(records: Records, used: set<Id>) {
    && (forall k :: k in records ==> records[k].id in used)
    && (forall k, l :: k in records && l in records && records[k].id == records[l].id ==> k == l)
  }

  /** No record of this id can still be written at this version. */
  ghost predicate Gone(records: Records, used: set<Id>, id: Id, version: nat) {
    id in used && forall k :: k in records && records[k].id == id ==> records[k].version > version
  }

  /** Does this call write the record `id` expecting `version`, and succeed? */
  predicate WinsRecord(records: Records, a: Action, limits: Id -> nat, id: Id, version: nat) {
    a.DoPut? && a.k in records && records[a.k].id == id && a.expected == Some(version) && Step(records, a, limits).1.Stored?
  }

  function RecordWinners(records: Records, actions: seq<Action>, limits: Id -> nat, id: Id, version: nat): nat
    decreases |actions|
  {
    if actions == [] then 0
    else
      (if WinsRecord(records, actions[0], limits, id, version) then 1 else 0) +
      RecordWinners(Step(records, actions[0], limits).0, actions[1..], limits, id, version)
  }

  lemma StepWrites(records: Records, a: Action, limits: Id -> nat, used: set<Id>, id: Id, version: nat)
    requires IdsOk(records, used) && (a.DoPut? ==> a.id !in used)
    ensures var records' := Step(records, a, limits).0;
            && IdsOk(records', used + NewId(a))
            && (Gone(records, used, id, version) ==> Gone(records', used + NewId(a), id, version))
            && (WinsRecord(records, a, limits, id, version) ==> !Gone(records, used, id, version) && Gone(records', used + NewId(a), id, version))
  {
    hide InScope;
  }

  /** Whatever is removed and created meanwhile, each version of each record is overwritten by at most one of the writers that expect it. */
  lemma {:induction false} OneWriterPerRecord(records: Records, actions: seq<Action>, limits: Id -> nat, used: set<Id>, id: Id, version: nat)
    requires IdsOk(records, used) && FreshIds(actions, used)
    ensures RecordWinners(records, actions, limits, id, version) <= if Gone(records, used, id, version) then 0 else 1
    decreases |actions|
  {
    if actions != [] {
      hide Step, IdsOk, Gone, WinsRecord;
      StepWrites(records, actions[0], limits, used, id, version);
      OneWriterPerRecord(Step(records, actions[0], limits).0, actions[1..], limits, used + NewId(actions[0]), id, version);
    }
  }

  // ---------------------------------------------------------------- listing while others write

  /** The keys of a scope. */
  function KeysOf(records: Records, scope: Scope): set<Key> { set k | k in records && k.scope == scope :: k.key }

  lemma {:induction false} LeastKey(keys: set<Key>) returns (least: Key)
    requires keys != {}
    ensures least in keys && forall k :: k in keys && k != least ==> Less(least, k)
    decreases |keys|
  {
    var any :| any in keys;
    if keys == {any} {
      least := any;
    } else {
      assert keys - {any} != {};
      least := LeastKey(keys - {any});
      LessIsTotal(any, least);
      if Less(any, least) {
        forall k | k in keys && k != any ensures Less(any, k) { if k != least { LessIsTransitive(any, least, k); } }
        least := any;
      }
    }
  }

  lemma HasLeastKey(keys: set<Key>)
    requires keys != {}
    ensures exists least :: least in keys && forall k :: k in keys && k != least ==> Less(least, k)
  {
    var least := LeastKey(keys);
  }

  /** `sorted`. */
  ghost function Sorted(keys: set<Key>): seq<Key>
    decreases |keys|
  {
    if keys == {} then []
    else
      HasLeastKey(keys);
      var least :| least in keys && forall k :: k in keys && k != least ==> Less(least, k);
      [least] + Sorted(keys - {least})
  }

  lemma {:induction false} SortedMeans(keys: set<Key>)
    ensures Ascending(Sorted(keys)) && forall k :: k in Sorted(keys) <==> k in keys
    decreases |keys|
  {
    if keys != {} {
      var sorted := Sorted(keys);
      var least, rest := sorted[0], sorted[1..];
      SortedMeans(keys - {least});
      assert sorted == [least] + rest;
      forall i, j | 0 <= i < j < |sorted| ensures Less(sorted[i], sorted[j]) {
        if i == 0 { assert sorted[j] == rest[j - 1] && rest[j - 1] in rest; } else { assert sorted[i] == rest[i - 1] && sorted[j] == rest[j - 1]; }
      }
    }
  }

  /** What lies behind a key. */
  predicate Behind(after: Option<Key>, k: Key) { after.None? || Less(after.value, k) }

  lemma {:induction false} FollowingMeans(keys: seq<Key>, after: Option<Key>)
    requires Ascending(keys)
    ensures Ascending(Following(keys, after)) && forall k :: k in Following(keys, after) <==> k in keys && Behind(after, k)
    decreases |keys|
  {
    if keys != [] {
      var rest := keys[1..];
      assert forall j :: 0 <= j < |rest| ==> rest[j] == keys[j + 1];
      FollowingMeans(rest, after);
      var tail := Following(rest, after);
      assert forall k :: k in keys <==> k == keys[0] || k in rest;
      forall k | k in tail ensures Less(keys[0], k) {
        var j :| 0 <= j < |rest| && rest[j] == k;
      }
      if Behind(after, keys[0]) { AscendingCons(keys[0], tail); }
    }
  }

  lemma AscendingCons(k: Key, tail: seq<Key>)
    requires Ascending(tail) && forall t :: t in tail ==> Less(k, t)
    ensures Ascending([k] + tail)
  {
  }

  /** Follow `next` while others write: each call sees the records of its own moment. `None` if the calls do not suffice. */
  ghost function WalkOver(moments: seq<Records>, scope: Scope, cursor: Option<string>, limit: nat): Option<seq<Key>>
    requires limit > 0
    decreases |moments|
  {
    if moments == [] then None
    else match ListPage(Sorted(KeysOf(moments[0], scope)), cursor, limit)
      case InvalidCursor => None
      case Page(page, next) =>
        if next.None? then Some(page)
        else match WalkOver(moments[1..], scope, next, limit)
          case None => None
          case Some(rest) => Some(page + rest)
  }

  ghost predicate NoEmptyKey(moments: seq<Records>, scope: Scope) {
    forall n :: 0 <= n < |moments| ==> [] !in KeysOf(moments[n], scope)
  }

  ghost predicate AlwaysThere(moments: seq<Records>, scope: Scope, k: Key) {
    forall n :: 0 <= n < |moments| ==> k in KeysOf(moments[n], scope)
  }

  function CursorFor(after: Option<Key>): Option<string> {
    match after
    case None => None
    case Some(key) => Some(EncodeCursor(key))
  }

  /** One page behind a key: a prefix of what is there behind it, all of it if no cursor comes with it. */
  ghost predicate PageOk(keys: set<Key>, after: Option<Key>, listed: Page) {
    && listed.Page? && Ascending(listed.keys)
    && (forall k :: k in listed.keys ==> k in keys && Behind(after, k))
    && (listed.next.None? ==> forall k :: k in keys && Behind(after, k) ==> k in listed.keys)
    && (listed.next.Some? ==>
          && listed.keys != [] && listed.next == CursorFor(Some(listed.keys[|listed.keys| - 1]))
          && forall k :: k in keys && Behind(after, k) && !Less(listed.keys[|listed.keys| - 1], k) ==> k in listed.keys)
  }

  lemma TakeMeans(entries: seq<Key>, limit: nat)
    requires Ascending(entries) && 0 < limit < |entries|
    ensures var page := entries[..limit];
            && Ascending(page) && (forall k :: k in page ==> k in entries)
            && forall k :: k in entries && !Less(page[limit - 1], k) ==> k in page
  {
    var page := entries[..limit];
    forall k | k in entries && !Less(page[limit - 1], k) ensures k in page {
      var j :| 0 <= j < |entries| && entries[j] == k;
      assert page[limit - 1] == entries[limit - 1];
      assert j < limit && page[j] == k;
    }
  }

  lemma ScopeBehind(keys: set<Key>, after: Option<Key>)
    requires after != Some([])
    ensures StartAfter(CursorFor(after)) == Some(after)
    ensures var entries := Following(Sorted(keys), after);
            Ascending(entries) && forall k :: k in entries <==> k in keys && Behind(after, k)
  {
    SortedMeans(keys);
    FollowingMeans(Sorted(keys), after);
    if after.Some? { EmptyKeyStartsOver(after.value); }
    hide Sorted, EncodeCursor, DecodeCursor, Following, Less, Ascending;
  }

  lemma PageBehind(keys: set<Key>, after: Option<Key>, limit: nat)
    requires limit > 0 && after != Some([])
    ensures PageOk(keys, after, ListPage(Sorted(keys), CursorFor(after), limit))
  {
    hide Sorted, Following, StartAfter, EncodeCursor, Ascending, Less, Behind;
    ScopeBehind(keys, after);
    var entries := Following(Sorted(keys), after);
    if |entries| > limit { TakeMeans(entries, limit); }
  }

  /** Two ascending lists, one behind the other. */
  lemma AscendingJoin(page: seq<Key>, rest: seq<Key>)
    requires Ascending(page) && Ascending(rest) && page != [] && forall k :: k in rest ==> Less(page[|page| - 1], k)
    ensures Ascending(page + rest)
  {
    var all := page + rest;
    forall i, j | 0 <= i < j < |all| ensures Less(all[i], all[j]) {
      if i < |page| <= j {
        assert all[j] == rest[j - |page|] && all[j] in rest;
        if i < |page| - 1 { LessIsTransitive(page[i], page[|page| - 1], all[j]); }
      }
    }
  }

  ghost predicate SomeTimeThere(moments: seq<Records>, scope: Scope, k: Key) {
    exists n :: 0 <= n < |moments| && k in KeysOf(moments[n], scope)
  }

  /** What a listing behind a key owes. */
  ghost predicate ListingOk(moments: seq<Records>, scope: Scope, after: Option<Key>, listed: seq<Key>) {
    && Ascending(listed)
    && (forall k :: k in listed ==> Behind(after, k) && SomeTimeThere(moments, scope, k))
    && (forall k :: AlwaysThere(moments, scope, k) && Behind(after, k) ==> k in listed)
  }

  lemma LaterMoments(moments: seq<Records>, scope: Scope, k: Key)
    requires moments != []
    ensures SomeTimeThere(moments[1..], scope, k) ==> SomeTimeThere(moments, scope, k)
    ensures AlwaysThere(moments, scope, k) ==> AlwaysThere(moments[1..], scope, k) && k in KeysOf(moments[0], scope)
    ensures k in KeysOf(moments[0], scope) ==> SomeTimeThere(moments, scope, k)
  {
    hide KeysOf;
    var later := moments[1..];
    if SomeTimeThere(later, scope, k) {
      var n :| 0 <= n < |later| && k in KeysOf(later[n], scope);
      assert k in KeysOf(moments[n + 1], scope);
    }
    assert forall n :: 0 <= n < |later| ==> later[n] == moments[n + 1];
  }

  lemma BehindTransitive(after: Option<Key>, last: Key, k: Key)
    requires Behind(after, last) && Less(last, k)
    ensures Behind(after, k)
  {
    if after.Some? { LessIsTransitive(after.value, last, k); }
  }

  lemma JoinPages(moments: seq<Records>, scope: Scope, after: Option<Key>, listed: Page, rest: seq<Key>)
    requires moments != [] && PageOk(KeysOf(moments[0], scope), after, listed) && listed.next.Some?
    requires ListingOk(moments[1..], scope, Some(listed.keys[|listed.keys| - 1]), rest)
    ensures ListingOk(moments, scope, after, listed.keys + rest)
  {
    var page := listed.keys;
    var last := page[|page| - 1];
    hide KeysOf, CursorFor, SomeTimeThere, AlwaysThere;
    assert last in page && forall k :: k in rest ==> Less(last, k);
    AscendingJoin(page, rest);
    hide Ascending, Less;
    forall k | k in page + rest ensures Behind(after, k) && SomeTimeThere(moments, scope, k) {
      LaterMoments(moments, scope, k);
      if k in rest { BehindTransitive(after, last, k); }
    }
    forall k | AlwaysThere(moments, scope, k) && Behind(after, k) ensures k in page + rest { LaterMoments(moments, scope, k); }
  }

  lemma LastPage(moments: seq<Records>, scope: Scope, after: Option<Key>, listed: Page)
    requires moments != [] && PageOk(KeysOf(moments[0], scope), after, listed) && listed.next.None?
    ensures ListingOk(moments, scope, after, listed.keys)
  {
    hide KeysOf, Ascending, Behind, SomeTimeThere, AlwaysThere;
    forall k: Key ensures k in KeysOf(moments[0], scope) ==> SomeTimeThere(moments, scope, k) { LaterMoments(moments, scope, k); }
    forall k: Key ensures AlwaysThere(moments, scope, k) ==> k in KeysOf(moments[0], scope) { LaterMoments(moments, scope, k); }
  }

  lemma LastIsNotEmpty(moments: seq<Records>, scope: Scope, after: Option<Key>, listed: Page)
    requires moments != [] && NoEmptyKey(moments, scope) && PageOk(KeysOf(moments[0], scope), after, listed) && listed.next.Some?
    ensures listed.keys[|listed.keys| - 1] != [] && NoEmptyKey(moments[1..], scope)
  {
    hide KeysOf, Ascending, Behind;
    assert listed.keys[|listed.keys| - 1] in listed.keys;
    assert forall n :: 0 <= n < |moments[1..]| ==> moments[1..][n] == moments[n + 1];
  }

  lemma {:induction false} WalkOverBehind(moments: seq<Records>, scope: Scope, after: Option<Key>, limit: nat)
    requires limit > 0 && after != Some([]) && NoEmptyKey(moments, scope)
    requires WalkOver(moments, scope, CursorFor(after), limit).Some?
    ensures ListingOk(moments, scope, after, WalkOver(moments, scope, CursorFor(after), limit).value)
    decreases |moments|
  {
    PageBehind(KeysOf(moments[0], scope), after, limit);
    var listed := ListPage(Sorted(KeysOf(moments[0], scope)), CursorFor(after), limit);
    if listed.next.Some? {
      var last := Some(listed.keys[|listed.keys| - 1]);
      LastIsNotEmpty(moments, scope, after, listed);
      assert listed.next == CursorFor(last);
      hide PageOk, ListingOk, ListPage, KeysOf, Sorted, CursorFor, NoEmptyKey;
      WalkOverBehind(moments[1..], scope, last, limit);
      JoinPages(moments, scope, after, listed, WalkOver(moments[1..], scope, CursorFor(last), limit).value);
    } else {
      LastPage(moments, scope, after, listed);
      hide PageOk, ListingOk, ListPage, KeysOf, Sorted, CursorFor, NoEmptyKey;
    }
  }

  /**
    However records are written and deleted between its calls, a listing that comes to its end
    lists no key twice, in key order, lists only keys that were there at some call, and lists
    every record that was there throughout exactly once.
   */
  lemma ListingWhileWriting(moments: seq<Records>, scope: Scope, limit: nat)
    requires limit > 0 && NoEmptyKey(moments, scope) && WalkOver(moments, scope, None, limit).Some?
    ensures var listed := WalkOver(moments, scope, None, limit).value;
            && Ascending(listed)
            && (forall k :: k in listed ==> SomeTimeThere(moments, scope, k))
            && (forall k :: AlwaysThere(moments, scope, k) ==> k in listed)
            && (forall i, j :: 0 <= i < j < |listed| ==> listed[i] != listed[j])
  {
    WalkOverBehind(moments, scope, None, limit);
    var listed := WalkOver(moments, scope, None, limit).value;
    hide WalkOver, AlwaysThere, SomeTimeThere, KeysOf;
    forall i, j | 0 <= i < j < |listed| ensures listed[i] != listed[j] {
      NotBelowItself(listed[i]);
    }
  }

  lemma {:induction false} WalkOverQuiet(records: Records, scope: Scope, cursor: Option<string>, limit: nat, n: nat)
    requires limit > 0
    ensures WalkOver(seq(n, _ => records), scope, cursor, limit) == Walk(Sorted(KeysOf(records, scope)), cursor, limit, n)
    decreases n
  {
    hide ListPage, Sorted, KeysOf;
    var moments := seq(n, _ => records);
    if n > 0 {
      assert moments[1..] == seq(n - 1, _ => records);
      var page := ListPage(Sorted(KeysOf(records, scope)), cursor, limit);
      if page.Page? && page.next.Some? { WalkOverQuiet(records, scope, page.next, limit, n - 1); }
    }
  }

  /** If nobody writes, a listing of any scope ends and lists exactly its keys, sorted. */
  lemma QuietListing(records: Records, scope: Scope, limit: nat)
    requires limit > 0 && [] !in KeysOf(records, scope)
    ensures var sorted := Sorted(KeysOf(records, scope));
            && WalkOver(seq(|sorted| + 1, _ => records), scope, None, limit) == Some(sorted)
            && Ascending(sorted) && forall k :: k in sorted <==> k in KeysOf(records, scope)
  {
    var sorted := Sorted(KeysOf(records, scope));
    SortedMeans(KeysOf(records, scope));
    hide Sorted, KeysOf, Walk, WalkOver;
    assert forall i :: 0 <= i < |sorted| ==> sorted[i] in sorted;
    WalkOverQuiet(records, scope, None, limit, |sorted| + 1);
    PagingListsEverything(sorted, limit);
  }

  /** The store, with the count taken record by record. */
  class AppDataService {
    var records: Records

    constructor ()
      ensures records == map[]
    {
      records := map[];
    }

    method PutDocument(k: RecordKey, id: Id, size: nat, expected: Option<nat>, max: nat) returns (outcome: Outcome)
      modifies this
      ensures (records, outcome) == Put(old(records), k, id, size, expected, max)
    {
      if expected.Some? && (k !in records || records[k].version != expected.value) { return Conflict; }
      var version := 1;
      var recordId := id;
      if k in records {
        version := records[k].version + 1;
        recordId := records[k].id;
      } else {
        var count := 0;
        var todo := records.Keys;
        ghost var counted: set<RecordKey> := {};
        while todo != {}
          invariant todo <= records.Keys && counted == InScope(records, k.scope) - todo && count == |counted|
          decreases todo
        {
          var other :| other in todo;
          todo := todo - {other};
          if other.scope == k.scope {
            count := count + 1;
            counted := counted + {other};
          }
        }
        assert counted == InScope(records, k.scope);
        if count >= max { return LimitReached; }
      }
      records := records[k := Record(recordId, size, version)];
      outcome := Stored(version);
    }

    method DeleteDocument(k: RecordKey, expected: Option<nat>) returns (outcome: Outcome)
      modifies this
      ensures (records, outcome) == Delete(old(records), k, expected)
    {
      if k !in records { return Absent; }
      if expected.Some? && records[k].version != expected.value { return Conflict; }
      records := records - {k};
      outcome := Removed;
    }
  }

  // ---------------------------------------------------------------- nesting and key limits

  /** The recursive walk with its shared counter; `None` when it raises. */
  function WalkJson(value: Json.Json, depth: nat, count: nat, maxDepth: nat, maxKeys: nat): Option<nat>
    decreases value, 1
  {
    if depth > maxDepth then None
    else match value
      case Obj(fields) =>
        if count + |fields| > maxKeys then None else WalkParts(value, 0, depth + 1, count + |fields|, maxDepth, maxKeys)
      case Arr(items) => WalkParts(value, 0, depth + 1, count, maxDepth, maxKeys)
      case _ => Some(count)
  }

  function PartCount(value: Json.Json): nat {
    match value
    case Obj(fields) => |fields|
    case Arr(items) => |items|
    case _ => 0
  }

  function Part(value: Json.Json, i: nat): (part: Json.Json)
    requires i < PartCount(value)
    ensures part < value
  {
    match value
    case Obj(fields) => fields[i].value
    case Arr(items) => items[i]
    case _ => value
  }

  function WalkParts(value: Json.Json, i: nat, depth: nat, count: nat, maxDepth: nat, maxKeys: nat): Option<nat>
    requires i <= PartCount(value)
    decreases value, 0, PartCount(value) - i
  {
    if i == PartCount(value) then Some(count)
    else match WalkJson(Part(value, i), depth, count, maxDepth, maxKeys)
      case None => None
      case Some(next) => WalkParts(value, i + 1, depth, next, maxDepth, maxKeys)
  }

  /** Object keys in the whole document. */
  function TotalKeys(value: Json.Json): nat
    decreases value, 1
  {
    (if value.Obj? then |value.fields| else 0) + PartKeys(value, 0)
  }

  function PartKeys(value: Json.Json, i: nat): nat
    requires i <= PartCount(value)
    decreases value, 0, PartCount(value) - i
  {
    if i == PartCount(value) then 0 else TotalKeys(Part(value, i)) + PartKeys(value, i + 1)
  }

  /** No value sits deeper than `room` containers below this one. */
  predicate FitsDepth(value: Json.Json, room: int)
    decreases value
  {
    room >= 0 && forall i :: 0 <= i < PartCount(value) ==> FitsDepth(Part(value, i), room - 1)
  }

  predicate PartsFit(value: Json.Json, i: nat, room: int) {
    forall j :: i <= j < PartCount(value) ==> FitsDepth(Part(value, j), room)
  }

  lemma PartsFitStep(value: Json.Json, i: nat, room: int)
    requires i < PartCount(value)
    ensures PartsFit(value, i, room) <==> FitsDepth(Part(value, i), room) && PartsFit(value, i + 1, room)
  {
    hide FitsDepth;
  }

  lemma FitsByParts(value: Json.Json, room: int)
    ensures FitsDepth(value, room) <==> room >= 0 && PartsFit(value, 0, room - 1)
  {
  }

  /** The walk accepts exactly the documents within both limits, however the keys are spread, and counts every key once. */
  lemma {:induction false} WalkCounts(value: Json.Json, depth: nat, count: nat, maxDepth: nat, maxKeys: nat)
    requires count <= maxKeys
    ensures WalkJson(value, depth, count, maxDepth, maxKeys) ==
            Counted(FitsDepth(value, maxDepth - depth), count, TotalKeys(value), maxKeys)
    decreases value, 1
  {
    FitsByParts(value, maxDepth - depth);
    hide FitsDepth, PartsFit, WalkParts, PartKeys;
    var own := if value.Obj? then |value.fields| else 0;
    assert TotalKeys(value) == own + PartKeys(value, 0);
    if depth <= maxDepth && count + own <= maxKeys {
      PartsCount(value, 0, depth + 1, count + own, maxDepth, maxKeys);
      ScalarParts(value, depth + 1, count + own, maxDepth, maxKeys);
    }
  }

  lemma ScalarParts(value: Json.Json, depth: nat, count: nat, maxDepth: nat, maxKeys: nat)
    ensures PartCount(value) == 0 ==> WalkParts(value, 0, depth, count, maxDepth, maxKeys) == Some(count)
  {
  }

  /** The counter after a walk that meets `more` keys, or nothing if a limit is broken. */
  function Counted(fits: bool, count: nat, more: nat, maxKeys: nat): Option<nat> {
    if fits && count + more <= maxKeys then Some(count + more) else None
  }

  lemma {:induction false} PartsCount(value: Json.Json, i: nat, depth: nat, count: nat, maxDepth: nat, maxKeys: nat)
    requires i <= PartCount(value) && count <= maxKeys
    ensures WalkParts(value, i, depth, count, maxDepth, maxKeys) ==
            Counted(PartsFit(value, i, maxDepth - depth), count, PartKeys(value, i), maxKeys)
    decreases value, 0, PartCount(value) - i
  {
    if i == PartCount(value) {
      NoMoreParts(value, depth, count, maxDepth, maxKeys);
    } else {
      WalkCounts(Part(value, i), depth, count, maxDepth, maxKeys);
      if count + TotalKeys(Part(value, i)) <= maxKeys {
        PartsCount(value, i + 1, depth, count + TotalKeys(Part(value, i)), maxDepth, maxKeys);
      }
      hide *;
      MorePartsCount(value, i, depth, count, maxDepth, maxKeys);
    }
  }

  lemma MorePartsCount(value: Json.Json, i: nat, depth: nat, count: nat, maxDepth: nat, maxKeys: nat)
    requires i < PartCount(value) && count <= maxKeys
    requires WalkJson(Part(value, i), depth, count, maxDepth, maxKeys) ==
             Counted(FitsDepth(Part(value, i), maxDepth - depth), count, TotalKeys(Part(value, i)), maxKeys)
    requires count + TotalKeys(Part(value, i)) <= maxKeys ==>
               WalkParts(value, i + 1, depth, count + TotalKeys(Part(value, i)), maxDepth, maxKeys) ==
               Counted(PartsFit(value, i + 1, maxDepth - depth), count + TotalKeys(Part(value, i)), PartKeys(value, i + 1), maxKeys)
    ensures WalkParts(value, i, depth, count, maxDepth, maxKeys) ==
            Counted(PartsFit(value, i, maxDepth - depth), count, PartKeys(value, i), maxKeys)
  {
    hide *;
    PartsFitStep(value, i, maxDepth - depth);
    PartSteps(value, i, depth, count, maxDepth, maxKeys);
    CountedInTurn(FitsDepth(Part(value, i), maxDepth - depth), PartsFit(value, i + 1, maxDepth - depth), count,
      TotalKeys(Part(value, i)), PartKeys(value, i + 1), maxKeys);
  }

  /** Counting two stretches one after the other. */
  lemma CountedInTurn(fits: bool, restFits: bool, count: nat, more: nat, rest: nat, maxKeys: nat)
    ensures Counted(fits && restFits, count, more + rest, maxKeys) ==
            match Counted(fits, count, more, maxKeys)
            case None => None
            case Some(next) => Counted(restFits, next, rest, maxKeys)
    ensures Counted(fits, count, more, maxKeys).Some? ==>
              Counted(fits, count, more, maxKeys).value == count + more && count + more <= maxKeys
  {
  }

  lemma NoMoreParts(value: Json.Json, depth: nat, count: nat, maxDepth: nat, maxKeys: nat)
    ensures WalkParts(value, PartCount(value), depth, count, maxDepth, maxKeys) == Some(count)
    ensures PartKeys(value, PartCount(value)) == 0 && PartsFit(value, PartCount(value), maxDepth - depth)
  {
  }

  lemma PartSteps(value: Json.Json, i: nat, depth: nat, count: nat, maxDepth: nat, maxKeys: nat)
    requires i < PartCount(value)
    ensures PartKeys(value, i) == TotalKeys(Part(value, i)) + PartKeys(value, i + 1)
    ensures WalkParts(value, i, depth, count, maxDepth, maxKeys) ==
            match WalkJson(Part(value, i), depth, count, maxDepth, maxKeys)
            case None => None
            case Some(next) => WalkParts(value, i + 1, depth, next, maxDepth, maxKeys)
  {
  }
}
