/**
  The Telegram polling listener (src/orcheo/listeners/telegram.py). The server keeps updates
  until a poll asks for a higher offset; the adapter stores an offset only after every update
  of a batch was dispatched or filtered out, and any call can fail on the way.
 */
module TelegramModel {
  import opened Common

  /** `accepted`: the update passes the subscription's filters. */
  datatype Update = Update(id: int, accepted: bool)

  /** What goes wrong in one poll: the i-th dispatch, or the save; `done` tells whether the call took effect. */
  datatype Fault = NoFault | FetchFails(done: bool) | DispatchFails(i: nat, done: bool) | SaveFails(done: bool)

  /** Updates the server still has, ascending; ids handled so far; the offset in the adapter and the stored one. */
  datatype State = State(
    pending: seq<Update>,
    emitted: set<int>,
    handled: set<int>,
    offset: Option<int>,
    stored: Option<int>)

  /** `Restart`: a new adapter starts with no offset of its own. */
  datatype Action = Emit(update: Update) | Poll(limit: nat, fault: Fault) | Restart

  function Start(): State { State([], {}, {}, None, None) }

  // ---------------------------------------------------------------- the server

  /** Asking for an offset makes the server forget every update below it. */
  function Confirm(pending: seq<Update>, offset: Option<int>): seq<Update>
    decreases |pending|
  {
    if pending == [] || offset.None? || pending[0].id >= offset.value then pending else Confirm(pending[1..], offset)
  }

  function Take(pending: seq<Update>, limit: nat): seq<Update> {
    if |pending| <= limit then pending else pending[..limit]
  }

  // ---------------------------------------------------------------- one batch

  predicate Breaks(batch: seq<Update>, fault: Fault) {
    fault.DispatchFails? && fault.i < |batch| && batch[fault.i].accepted
  }

  /** How many updates of the batch are dispatched or filtered out. */
  function HandledCount(batch: seq<Update>, fault: Fault): nat {
    if Breaks(batch, fault) then fault.i + if fault.done then 1 else 0 else |batch|
  }

  function Ids(batch: seq<Update>): set<int> { set u | u in batch :: u.id }

  function NextOffset(batch: seq<Update>, offset: Option<int>): Option<int> {
    if batch == [] then offset else Some(batch[|batch| - 1].id + 1)
  }

  /** One turn of `run`: reload the stored offset, poll, dispatch, store the next offset. */
  function PollOnce(s: State, limit: nat, fault: Fault): State {
    var offset := if s.stored.Some? then s.stored else s.offset;
    var s := s.(offset := offset);
    if fault == FetchFails(false) then s
    else
      var s := s.(pending := Confirm(s.pending, offset));
      if fault.FetchFails? then s
      else
        var batch := Take(s.pending, limit);
        var s := s.(handled := s.handled + Ids(batch[..HandledCount(batch, fault)]));
        var next := NextOffset(batch, offset);
        if Breaks(batch, fault) then s
        else if next.None? then s
        else if fault == SaveFails(false) then s
        else if fault.SaveFails? then s.(stored := next)
        else s.(stored := next, offset := next)
  }

  function Step(s: State, a: Action): State {
    match a
    case Emit(update) =>
      if forall id :: id in s.emitted ==> id < update.id
      then s.(pending := s.pending + [update], emitted := s.emitted + {update.id}) else s
    case Poll(limit, fault) => PollOnce(s, limit, fault)
    case Restart => s.(offset := None)
  }

  function After(s: State, actions: seq<Action>): State
    decreases |actions|
  {
    if actions == [] then s else After(Step(s, actions[0]), actions[1..])
  }

  // ---------------------------------------------------------------- no update is lost

  ghost predicate Ascending(updates: seq<Update>) {
    forall i, j :: 0 <= i < j < |updates| ==> updates[i].id < updates[j].id
  }

  /** An offset follows an update the server emitted, and every update below it was handled. */
  ghost predicate Safe(emitted: set<int>, handled: set<int>, offset: Option<int>) {
    offset.Some? ==>
      offset.value - 1 in emitted && forall id :: id in emitted && id < offset.value ==> id in handled
  }

  ghost predicate Invariant(s: State) {
    && Ascending(s.pending)
    && Ids(s.pending) <= s.emitted
    && (forall id :: id in s.emitted ==> id in s.handled || id in Ids(s.pending))
    && Safe(s.emitted, s.handled, s.stored) && Safe(s.emitted, s.handled, s.offset)
  }

  lemma {:induction false} ConfirmKeeps(pending: seq<Update>, offset: Option<int>)
    requires Ascending(pending)
    ensures var rest := Confirm(pending, offset);
            && Ascending(rest) && Ids(rest) <= Ids(pending)
            && (forall u :: u in rest ==> offset.Some? ==> u.id >= offset.value)
            && (forall id :: id in Ids(pending) && id !in Ids(rest) ==> offset.Some? && id < offset.value)
    decreases |pending|
  {
    if pending == [] || offset.None? {
    } else if pending[0].id >= offset.value {
      forall u | u in pending ensures u.id >= offset.value {
        var i :| 0 <= i < |pending| && pending[i] == u;
      }
    } else {
      assert Ascending(pending[1..]);
      ConfirmKeeps(pending[1..], offset);
      assert forall u :: u in pending ==> u == pending[0] || u in pending[1..];
    }
  }

  /** Ids below a prefix's next offset, if still pending, are in that prefix. */
  lemma PrefixBelow(pending: seq<Update>, n: nat, id: int)
    requires Ascending(pending) && 0 < n <= |pending| && id in Ids(pending) && id < pending[n - 1].id + 1
    ensures id in Ids(pending[..n])
  {
    var u :| u in pending && u.id == id;
    var i :| 0 <= i < |pending| && pending[i] == u;
    assert i < n;
    assert pending[..n][i] == u;
  }

  /** The next offset of a fully handled batch is safe. */
  lemma NextIsSafe(s: State, kept: seq<Update>, batch: seq<Update>, offset: Option<int>)
    requires Ascending(kept) && batch <= kept && Ids(kept) <= s.emitted
    requires Safe(s.emitted, s.handled, offset)
    requires forall id :: id in s.emitted ==> id in s.handled || id in Ids(kept)
    ensures Safe(s.emitted, s.handled + Ids(batch), NextOffset(batch, offset))
  {
    if batch != [] {
      var last := batch[|batch| - 1];
      assert last in kept && last.id in Ids(kept);
      forall id | id in s.emitted && id < last.id + 1 ensures id in s.handled + Ids(batch) {
        if id !in s.handled {
          assert batch == kept[..|batch|];
          PrefixBelow(kept, |batch|, id);
        }
      }
    }
  }

  /** Confirming an offset drops only handled updates. */
  lemma ConfirmLoses(s: State, offset: Option<int>)
    requires Invariant(s) && Safe(s.emitted, s.handled, offset)
    ensures Invariant(s.(pending := Confirm(s.pending, offset)))
  {
    ConfirmKeeps(s.pending, offset);
    hide Confirm, Ids;
  }

  /** Handling more keeps the invariant; so does moving an offset to one that is safe afterwards. */
  lemma HandledMore(s: State, more: set<int>, stored: Option<int>, offset: Option<int>)
    requires Invariant(s)
    requires stored == s.stored || Safe(s.emitted, s.handled + more, stored)
    requires offset == s.offset || Safe(s.emitted, s.handled + more, offset)
    ensures Invariant(s.(handled := s.handled + more, stored := stored, offset := offset))
  {
    hide Ascending, Ids;
  }

  /** How a poll ends: before the fetch, after it, or with a batch, whose next offset is stored only if the whole batch was handled. */
  lemma PollEnds(s: State, limit: nat, fault: Fault)
    ensures var offset := if s.stored.Some? then s.stored else s.offset;
            var s1 := s.(offset := offset); var s2 := s1.(pending := Confirm(s.pending, offset));
            var batch := Take(s2.pending, limit); var next := NextOffset(batch, offset); var s' := PollOnce(s, limit, fault);
            || s' == s1 || s' == s2
            || (exists stored, kept ::
                  && s' == s2.(handled := s2.handled + Ids(batch[..HandledCount(batch, fault)]), stored := stored, offset := kept)
                  && ((stored == s2.stored && kept == s2.offset) ||
                      (!Breaks(batch, fault) && (stored == s2.stored || stored == next) && (kept == s2.offset || kept == next))))
  {
    hide Confirm, Take, Ids, NextOffset;
    var offset := if s.stored.Some? then s.stored else s.offset;
    var s2 := s.(offset := offset, pending := Confirm(s.pending, offset));
    var s' := PollOnce(s, limit, fault);
    if !fault.FetchFails? {
      var batch := Take(s2.pending, limit);
      assert s' == s2.(handled := s2.handled + Ids(batch[..HandledCount(batch, fault)]), stored := s'.stored, offset := s'.offset);
    }
  }

  lemma PollKeeps(s: State, limit: nat, fault: Fault)
    requires Invariant(s)
    ensures Invariant(PollOnce(s, limit, fault))
  {
    var offset := if s.stored.Some? then s.stored else s.offset;
    var s1 := s.(offset := offset);
    assert Invariant(s1) && Safe(s1.emitted, s1.handled, offset);
    hide Invariant, Safe, Confirm, Take, Ids, NextOffset, PollOnce, Ascending;
    ConfirmLoses(s1, offset);
    var s2 := s1.(pending := Confirm(s.pending, offset));
    var batch := Take(s2.pending, limit);
    BatchIsSafe(s2, limit, offset);
    PollEnds(s, limit, fault);
    AllHandled(batch, fault);
    var s' := PollOnce(s, limit, fault);
    if s' != s1 && s' != s2 {
      HandledMore(s2, Ids(batch[..HandledCount(batch, fault)]), s'.stored, s'.offset);
    }
  }

  lemma BatchIsSafe(s: State, limit: nat, offset: Option<int>)
    requires Invariant(s) && Safe(s.emitted, s.handled, offset)
    ensures var batch := Take(s.pending, limit); Safe(s.emitted, s.handled + Ids(batch), NextOffset(batch, offset))
  {
    NextIsSafe(s, s.pending, Take(s.pending, limit), offset);
    hide Ids, Safe, NextOffset, Ascending;
  }

  lemma AllHandled(batch: seq<Update>, fault: Fault)
    ensures !Breaks(batch, fault) ==> batch[..HandledCount(batch, fault)] == batch
  {
  }

  lemma EmitKeeps(s: State, update: Update)
    requires Invariant(s) && forall id :: id in s.emitted ==> id < update.id
    ensures Invariant(s.(pending := s.pending + [update], emitted := s.emitted + {update.id}))
  {
    var pending := s.pending + [update];
    forall i, j | 0 <= i < j < |pending| ensures pending[i].id < pending[j].id {
      assert pending[i] == s.pending[i] && s.pending[i].id in Ids(s.pending);
    }
    forall u | u in s.pending ensures u in pending {
      var i :| 0 <= i < |s.pending| && s.pending[i] == u;
      assert pending[i] == u;
    }
    assert update == pending[|s.pending|];
    assert forall u :: u in pending ==> u in s.pending || u == update;
  }

  lemma StepKeeps(s: State, a: Action)
    requires Invariant(s)
    ensures Invariant(Step(s, a))
  {
    match a
    case Poll(limit, fault) => PollKeeps(s, limit, fault);
    case Emit(update) => if forall id :: id in s.emitted ==> id < update.id { EmitKeeps(s, update); }
    case Restart =>
  }

  lemma {:induction false} RunKeeps(s: State, actions: seq<Action>)
    requires Invariant(s)
    ensures Invariant(After(s, actions))
    decreases |actions|
  {
    hide Invariant, Step;
    if actions != [] {
      StepKeeps(s, actions[0]);
      RunKeeps(Step(s, actions[0]), actions[1..]);
    }
  }

  /**
    No update is ever lost: in every reachable state an update the server emitted was handled
    or can still be fetched, and everything below the stored offset was handled.
   */
  lemma NoUpdateLost(actions: seq<Action>, id: int)
    requires id in After(Start(), actions).emitted
    ensures var s := After(Start(), actions);
            && (id in s.handled || id in Ids(s.pending))
            && (s.stored.Some? && id < s.stored.value ==> id in s.handled)
  {
    RunKeeps(Start(), actions);
    hide After;
  }

  /** The offset a poll asks for, and what the server then still has. */
  function Asked(s: State): Option<int> { if s.stored.Some? then s.stored else s.offset }

  function Left(s: State): seq<Update> { Confirm(s.pending, Asked(s)) }

  lemma {:induction false} ConfirmDrops(updates: seq<Update>, n: nat)
    requires Ascending(updates) && 0 < n <= |updates|
    ensures Confirm(updates, Some(updates[n - 1].id + 1)) == updates[n..]
    decreases |updates|
  {
    var offset := Some(updates[n - 1].id + 1);
    if n == 1 {
      assert Confirm(updates, offset) == Confirm(updates[1..], offset);
    } else {
      assert updates[0].id < updates[n - 1].id;
      ConfirmDrops(updates[1..], n - 1);
      assert updates[1..][n - 2] == updates[n - 1] && updates[1..][n - 1..] == updates[n..];
    }
  }

  /**
    A poll that nothing breaks handles every update of its batch and nothing else, and leaves
    for the next poll exactly the updates behind the batch.
   */
  lemma QuietPollAdvances(s: State, limit: nat)
    requires Invariant(s)
    ensures var s' := PollOnce(s, limit, NoFault); var batch := Take(Left(s), limit);
            && s'.handled == s.handled + Ids(batch) && s'.emitted == s.emitted
            && (batch == [] ==> Left(s') == Left(s))
            && (batch != [] ==> s'.stored == Some(batch[|batch| - 1].id + 1) && Left(s) == batch + Left(s'))
  {
    LeftAscends(s);
    QuietPollIs(s, limit);
    hide *;
    LeftTwice(s);
    if Take(Left(s), limit) == [] { EmptyBatch(Asked(s)); } else { BatchConfirmed(Left(s), limit); }
    NextAfter(Take(Left(s), limit), Asked(s));
  }

  lemma LeftAscends(s: State)
    requires Invariant(s)
    ensures Ascending(Left(s))
  {
    ConfirmKeeps(s.pending, Asked(s));
    hide Confirm, Ids, Ascending;
  }

  lemma LeftTwice(s: State)
    ensures Confirm(Left(s), Asked(s)) == Left(s)
  {
    ConfirmTwice(s.pending, Asked(s));
    hide Confirm, Asked;
  }

  lemma EmptyBatch(offset: Option<int>)
    ensures NextOffset([], offset) == offset
  {
  }

  lemma NextAfter(batch: seq<Update>, offset: Option<int>)
    ensures batch != [] ==> NextOffset(batch, offset) == Some(batch[|batch| - 1].id + 1)
  {
  }

  /** What such a poll does, and what it leaves. */
  lemma QuietPollIs(s: State, limit: nat)
    ensures var s' := PollOnce(s, limit, NoFault); var batch := Take(Left(s), limit); var next := NextOffset(batch, Asked(s));
            && s'.handled == s.handled + Ids(batch) && s'.emitted == s.emitted
            && (batch != [] ==> s'.stored == next) && Left(s') == Confirm(Left(s), next)
  {
    hide Confirm, Take, Ids;
    var batch := Take(Left(s), limit);
    assert batch[..|batch|] == batch;
  }

  /** The offset behind a batch leaves exactly what comes behind it. */
  lemma BatchConfirmed(kept: seq<Update>, limit: nat)
    requires Ascending(kept) && Take(kept, limit) != []
    ensures var batch := Take(kept, limit); kept == batch + Confirm(kept, Some(batch[|batch| - 1].id + 1))
  {
    var n := |Take(kept, limit)|;
    ConfirmDrops(kept, n);
    hide Confirm, Ascending;
    assert Take(kept, limit) == kept[..n];
  }

  lemma {:induction false} ConfirmTwice(pending: seq<Update>, offset: Option<int>)
    ensures Confirm(Confirm(pending, offset), offset) == Confirm(pending, offset)
    decreases |pending|
  {
    if pending != [] && offset.Some? && pending[0].id < offset.value { ConfirmTwice(pending[1..], offset); }
  }

  function Polls(limit: nat, n: nat): seq<Action> { if n == 0 then [] else [Poll(limit, NoFault)] + Polls(limit, n - 1) }

  lemma NothingLeft(s: State)
    requires Invariant(s) && Left(s) == []
    ensures s.emitted <= s.handled
  {
    ConfirmKeeps(s.pending, Asked(s));
    assert Safe(s.emitted, s.handled, Asked(s)) && Ids([]) == {};
    hide Confirm, Ascending, Ids;
    forall id | id in s.emitted ensures id in s.handled {
      assert id in Ids(s.pending) ==> id !in Ids(Confirm(s.pending, Asked(s)));
    }
  }

  /** Once nothing breaks any more, as many polls as there are updates left handle everything the server ever emitted. */
  lemma {:induction false} QuietPollsDrain(s: State, limit: nat, n: nat)
    requires Invariant(s) && limit > 0 && n >= |Left(s)|
    ensures var s' := After(s, Polls(limit, n)); s'.emitted == s.emitted && s.emitted <= s'.handled
    decreases n
  {
    if n == 0 {
      NothingLeft(s);
    } else {
      var s' := PollOnce(s, limit, NoFault);
      QuietPollAdvances(s, limit);
      PollKeeps(s, limit, NoFault);
      assert Left(s) != [] ==> Take(Left(s), limit) != [];
      hide PollOnce, Invariant, Left, Take;
      QuietPollsDrain(s', limit, n - 1);
      assert Polls(limit, n)[1..] == Polls(limit, n - 1);
    }
  }
}

/** The adapter: one loop over a fetched batch. */
module TelegramCursor {
  import opened Common
  import opened TelegramModel

  class TelegramPollingAdapter {
    var offset: Option<int>
    var stored: Option<int>
    ghost var handled: set<int>

    constructor (stored: Option<int>)
      ensures offset == None && this.stored == stored && handled == {}
    {
      offset, this.stored, handled := None, stored, {};
    }

    /** `poll_once` on a fetched batch, with the loop of the source; false when a call raises. */
    method HandleBatch(batch: seq<Update>, start: Option<int>, fault: Fault) returns (ok: bool)
      modifies this
      ensures handled == old(handled) + Ids(batch[..HandledCount(batch, fault)])
      ensures ok <==> !Breaks(batch, fault) && !(fault.SaveFails? && NextOffset(batch, start).Some?)
      ensures stored == if Breaks(batch, fault) || NextOffset(batch, start).None? || fault == SaveFails(false)
                        then old(stored) else NextOffset(batch, start)
      ensures offset == if ok then NextOffset(batch, start) else old(offset)
    {
      var next := start;
      var k := 0;
      while k < |batch|
        invariant 0 <= k <= |batch|
        invariant next == NextOffset(batch[..k], start)
        invariant handled == old(handled) + Ids(batch[..k])
        invariant !(fault.DispatchFails? && fault.i < k && batch[fault.i].accepted)
        invariant stored == old(stored) && offset == old(offset)
      {
        var update := batch[k];
        next := Some(update.id + 1);
        assert batch[..k + 1] == batch[..k] + [update];
        IdsAppend(batch[..k], update);
        if update.accepted && fault.DispatchFails? && fault.i == k {
          if fault.done { handled := handled + {update.id}; }
          return false;
        }
        handled := handled + {update.id};
        k := k + 1;
      }
      assert batch[..k] == batch;
      if next.Some? {
        if fault != SaveFails(false) { stored := next; }
        if fault.SaveFails? { return false; }
      }
      offset := next;
      ok := true;
    }
  }

  lemma IdsAppend(batch: seq<Update>, update: Update)
    ensures Ids(batch + [update]) == Ids(batch) + {update.id}
  {
    assert update in batch + [update];
    assert forall u :: u in batch ==> u in batch + [update];
  }
}
