/**
  Persisted gateway cursors of the Discord and QQ listeners (src/orcheo/listeners/discord.py,
  src/orcheo/listeners/qq.py). The remote side is an ordered log per session: the n-th frame
  dispatched in a session carries sequence number n. Connections break at any point, and any
  repository call may fail before or after it took effect.
 */
module GatewayModel {
  import opened Common

  type SessionId = nat

  datatype Platform = Discord | QQ

  /** `url` says whether a resume URL is stored. */
  datatype Cursor = Cursor(session: Option<SessionId>, position: Option<nat>, url: bool)

  const EMPTY := Cursor(None, None, false)

  /** The payload of a dispatch frame. `accepted`: the event passes the subscription's filters. */
  datatype Item =
    | Ready(session: SessionId, resumeUrl: bool)
    | Resumed
    | Event(accepted: bool)
    | Malformed

  datatype Frame =
    | Dispatch(position: nat, item: Item)
    | HeartbeatAck
    | HeartbeatRequest
    | Reconnect
    | InvalidSession
    | Unknown

  /** What goes wrong while one frame is handled; `done` tells whether the failed call took effect. */
  datatype Fault = NoFault | DispatchFails(done: bool) | SaveFails(done: bool) | SendFails

  datatype Outcome = Continue | Leave | Raised

  /** The adapter's copy of the cursor, the stored one, whether the event was handled, and what the session does next. */
  datatype Handled = Handled(cursor: Cursor, stored: Cursor, handled: bool, outcome: Outcome)

  function Saved(cursor: Cursor, stored: Cursor, handled: bool, next: Outcome, fault: Fault): Handled {
    match fault
    case SaveFails(done) => Handled(cursor, if done then cursor else stored, handled, Raised)
    case _ => Handled(cursor, cursor, handled, next)
  }

  /** A READY frame names the new session; Discord keeps an old resume URL when none comes. */
  function AfterReady(p: Platform, c: Cursor, session: SessionId, resumeUrl: bool): Cursor {
    Cursor(Some(session), c.position, if p.QQ? then true else c.url || resumeUrl)
  }

  /** One frame, as both adapters handle it. */
  function HandleFrame(p: Platform, c: Cursor, stored: Cursor, frame: Frame, fault: Fault): Handled {
    match frame
    case Dispatch(position, item) =>
      var c := c.(position := Some(position));
      (match item
       case Ready(session, resumeUrl) => Saved(AfterReady(p, c, session, resumeUrl), stored, true, Continue, fault)
       case Resumed => Saved(c, stored, true, Continue, fault)
       case Malformed => Handled(c, stored, true, Continue)
       case Event(accepted) =>
         if accepted && fault.DispatchFails? then Handled(c, stored, fault.done, Raised)
         else Saved(c, stored, true, Continue, fault))
    case HeartbeatRequest => Handled(c, stored, false, if fault.SendFails? then Raised else Continue)
    case Reconnect =>
      if p.QQ? then Saved(c.(url := true), stored, false, Leave, fault) else Handled(c, stored, false, Leave)
    case InvalidSession => Saved(EMPTY, stored, false, Leave, fault)
    case HeartbeatAck => Handled(c, stored, false, Continue)
    case Unknown => Handled(c, stored, false, Continue)
  }

  /** RESUME needs a session and a sequence; on Discord also a resume URL. */
  predicate Resumes(p: Platform, c: Cursor) {
    c.session.Some? && c.position.Some? && (p.QQ? || c.url)
  }

  // ---------------------------------------------------------------- the remote side and the connection

  /** An open connection: its session, how many of the session's frames were delivered, and the adapter's cursor. */
  datatype Connection = Connection(session: SessionId, delivered: nat, cursor: Cursor)

  /** `handled` records which frames were dispatched to the workflow or filtered out. */
  datatype State = State(
    logs: seq<seq<Item>>,
    stored: Cursor,
    connection: Option<Connection>,
    handled: set<(SessionId, nat)>)

  datatype Action =
    | Connect(resumeUrl: bool)
    | Emit(session: SessionId, item: Item)
    | Deliver(fault: Fault)
    | Control(frame: Frame, fault: Fault)
    | Disconnect

  function Start(): State { State([], EMPTY, None, {}) }

  /** Reload the stored cursor; RESUME continues after it, IDENTIFY opens a session that begins with READY. */
  function ConnectOne(p: Platform, s: State, resumeUrl: bool): State {
    var c := s.stored;
    if Resumes(p, c) then s.(connection := Some(Connection(c.session.value, c.position.value, c)))
    else
      s.(logs := s.logs + [[Ready(|s.logs|, resumeUrl)]], connection := Some(Connection(|s.logs|, 0, c)))
  }

  function Received(p: Platform, s: State, frame: Frame, fault: Fault): State
    requires s.connection.Some?
  {
    var conn := s.connection.value;
    var h := HandleFrame(p, conn.cursor, s.stored, frame, fault);
    State(s.logs, h.stored,
      if h.outcome == Continue
      then Some(conn.(cursor := h.cursor, delivered := conn.delivered + if frame.Dispatch? then 1 else 0)) else None,
      if h.handled then s.handled + {(conn.session, conn.delivered + 1)} else s.handled)
  }

  function Step(p: Platform, s: State, a: Action): State {
    match a
    case Connect(resumeUrl) => if s.connection.None? then ConnectOne(p, s, resumeUrl) else s
    case Emit(session, item) =>
      if session < |s.logs| && !item.Ready? then s.(logs := s.logs[session := s.logs[session] + [item]]) else s
    case Deliver(fault) =>
      if s.connection.Some? && s.connection.value.session < |s.logs| &&
         s.connection.value.delivered < |s.logs[s.connection.value.session]|
      then
        var conn := s.connection.value;
        Received(p, s, Dispatch(conn.delivered + 1, s.logs[conn.session][conn.delivered]), fault)
      else s
    case Control(frame, fault) =>
      if s.connection.Some? && !frame.Dispatch? then Received(p, s, frame, fault) else s
    case Disconnect => s.(connection := None)
  }

  function After(p: Platform, s: State, actions: seq<Action>): State
    decreases |actions|
  {
    if actions == [] then s else After(p, Step(p, s, actions[0]), actions[1..])
  }

  // ---------------------------------------------------------------- no event is lost

  /** Every frame of the session up to `n` was handled. */
  ghost predicate HandledUpTo(s: State, session: SessionId, n: nat) {
    forall k :: 1 <= k <= n ==> (session, k) in s.handled
  }

  /** A cursor never overtakes what was handled. */
  ghost predicate Behind(s: State, c: Cursor) {
    c.session.Some? && c.position.Some? ==>
      && c.session.value < |s.logs| && c.position.value <= |s.logs[c.session.value]|
      && HandledUpTo(s, c.session.value, c.position.value)
  }

  ghost predicate ConnectionOk(s: State, conn: Connection) {
    && conn.session < |s.logs|
    && conn.delivered <= |s.logs[conn.session]|
    && HandledUpTo(s, conn.session, conn.delivered)
    && Behind(s, conn.cursor)
    && (conn.delivered > 0 ==> conn.cursor.session == Some(conn.session) && conn.cursor.position == Some(conn.delivered))
  }

  ghost predicate LogsOk(s: State) {
    && (forall i :: 0 <= i < |s.logs| ==> s.logs[i] != [] && s.logs[i][0].Ready? && s.logs[i][0].session == i)
    && (forall i, k :: 0 <= i < |s.logs| && 0 < k < |s.logs[i]| ==> !s.logs[i][k].Ready?)
  }

  ghost predicate Invariant(s: State) {
    && LogsOk(s)
    && Behind(s, s.stored)
    && (s.connection.Some? ==> ConnectionOk(s, s.connection.value))
  }

  /** Growing logs and histories keep a cursor behind. */
  lemma BehindGrows(s: State, s': State, c: Cursor)
    requires Behind(s, c) && s.handled <= s'.handled && |s.logs| <= |s'.logs|
    requires forall i :: 0 <= i < |s.logs| ==> |s.logs[i]| <= |s'.logs[i]|
    ensures Behind(s', c)
  {
  }

  /** Handling the next frame of the log moves every cursor at most to that frame, and only if it was handled. */
  lemma DeliverKeeps(p: Platform, s: State, fault: Fault)
    requires Invariant(s) && s.connection.Some?
    requires s.connection.value.delivered < |s.logs[s.connection.value.session]|
    ensures Invariant(Step(p, s, Deliver(fault)))
  {
    var conn := s.connection.value;
    var item := s.logs[conn.session][conn.delivered];
    var h := HandleFrame(p, conn.cursor, s.stored, Dispatch(conn.delivered + 1, item), fault);
    var s' := Step(p, s, Deliver(fault));
    FrameHandled(p, conn.cursor, s.stored, conn.delivered + 1, item, fault);
    assert h.handled ==> h.cursor.session == Some(conn.session);
    assert s'.stored == h.stored && s'.logs == s.logs;
    hide HandleFrame, LogsOk;
    BehindGrows(s, s', s.stored);
    if h.handled { NowHandled(s, s', h.cursor); }
    hide Behind, HandledUpTo;
  }

  /** A dispatch moves the adapter's cursor to its frame, and stores it only once the frame was handled. */
  lemma FrameHandled(p: Platform, c: Cursor, stored: Cursor, position: nat, item: Item, fault: Fault)
    ensures var h := HandleFrame(p, c, stored, Dispatch(position, item), fault);
            && h.cursor.position == Some(position) && (h.stored != stored ==> h.handled && h.stored == h.cursor)
            && (h.outcome == Continue ==> h.handled)
            && h.cursor.session == if item.Ready? then Some(item.session) else c.session
  {
  }

  /** The cursor at the frame that was just handled. */
  lemma NowHandled(s: State, s': State, c: Cursor)
    requires s.connection.Some? && ConnectionOk(s, s.connection.value) && s'.logs == s.logs
    requires var conn := s.connection.value;
             && conn.delivered < |s.logs[conn.session]| && s'.handled == s.handled + {(conn.session, conn.delivered + 1)}
             && c.session == Some(conn.session) && c.position == Some(conn.delivered + 1)
    ensures var conn := s.connection.value; HandledUpTo(s', conn.session, conn.delivered + 1) && Behind(s', c)
  {
  }

  lemma ControlKeeps(p: Platform, s: State, frame: Frame, fault: Fault)
    requires Invariant(s) && s.connection.Some? && !frame.Dispatch?
    ensures Invariant(Step(p, s, Control(frame, fault)))
  {
    var conn := s.connection.value;
    var s' := Step(p, s, Control(frame, fault));
    BehindGrows(s, s', s.stored);
    BehindGrows(s, s', conn.cursor);
    BehindGrows(s, s', conn.cursor.(url := true));
    assert Behind(s', EMPTY);
  }

  lemma StepKeeps(p: Platform, s: State, a: Action)
    requires Invariant(s)
    ensures Invariant(Step(p, s, a))
  {
    var s' := Step(p, s, a);
    match a
    case Deliver(fault) => if s' != s { DeliverKeeps(p, s, fault); }
    case Control(frame, fault) => if s.connection.Some? && !frame.Dispatch? { ControlKeeps(p, s, frame, fault); }
    case _ =>
      BehindGrows(s, s', s.stored);
      if s.connection.Some? { BehindGrows(s, s', s.connection.value.cursor); }
  }

  lemma {:induction false} RunKeeps(p: Platform, s: State, actions: seq<Action>)
    requires Invariant(s)
    ensures Invariant(After(p, s, actions))
    decreases |actions|
  {
    hide Invariant, Step;
    if actions != [] {
      StepKeeps(p, s, actions[0]);
      RunKeeps(p, Step(p, s, actions[0]), actions[1..]);
    }
  }

  /** Whatever fails and however often the adapter reconnects, the stored sequence never overtakes a handled event. */
  lemma NeverOvertakes(p: Platform, actions: seq<Action>, k: nat)
    requires var c := After(p, Start(), actions).stored; c.session.Some? && c.position.Some? && 1 <= k <= c.position.value
    ensures var s := After(p, Start(), actions); (s.stored.session.value, k) in s.handled
  {
    RunKeeps(p, Start(), actions);
    hide After;
  }

  /** On an open connection every logged frame was handled or is still to be delivered. */
  lemma NothingSkipped(p: Platform, actions: seq<Action>, k: nat)
    requires var s := After(p, Start(), actions);
             s.connection.Some? && s.connection.value.session < |s.logs| && 1 <= k <= |s.logs[s.connection.value.session]|
    ensures var s := After(p, Start(), actions);
            (s.connection.value.session, k) in s.handled || k > s.connection.value.delivered
  {
    RunKeeps(p, Start(), actions);
    hide After;
  }

  /** And the next connection of a resumed session starts right after the stored sequence. */
  lemma ResumeRedelivers(p: Platform, actions: seq<Action>, resumeUrl: bool, k: nat)
    requires var s := After(p, Start(), actions);
             && s.connection.None? && Resumes(p, s.stored) && s.stored.session.value < |s.logs|
             && 1 <= k <= |s.logs[s.stored.session.value]| && (s.stored.session.value, k) !in s.handled
    ensures var s' := Step(p, After(p, Start(), actions), Connect(resumeUrl));
            s'.connection.Some? && s'.connection.value.session == s'.stored.session.value && k > s'.connection.value.delivered
  {
    RunKeeps(p, Start(), actions);
    hide After;
  }

  // ---------------------------------------------------------------- what can still be handled

  /** The next connection resumes this session. */
  predicate ResumesSession(p: Platform, c: Cursor, i: SessionId) { Resumes(p, c) && c.session == Some(i) }

  /** A session that nobody is connected to and that no cursor resumes. */
  predicate Abandoned(p: Platform, s: State, i: SessionId) {
    && i < |s.logs| && !ResumesSession(p, s.stored, i)
    && (s.connection.Some? ==> s.connection.value.session != i && !ResumesSession(p, s.connection.value.cursor, i))
  }

  /** A cursor that names a session has a sequence. */
  predicate Numbered(c: Cursor) { c.session.Some? ==> c.position.Some? }

  predicate AllNumbered(s: State) { Numbered(s.stored) && (s.connection.Some? ==> Numbered(s.connection.value.cursor)) }

  lemma StepKeepsNumbered(p: Platform, s: State, a: Action)
    requires AllNumbered(s)
    ensures AllNumbered(Step(p, s, a))
  {
  }

  lemma {:induction false} RunKeepsNumbered(p: Platform, s: State, actions: seq<Action>)
    requires AllNumbered(s)
    ensures AllNumbered(After(p, s, actions))
    decreases |actions|
  {
    if actions != [] {
      StepKeepsNumbered(p, s, actions[0]);
      hide Step;
      RunKeepsNumbered(p, Step(p, s, actions[0]), actions[1..]);
    }
  }

  /** In every reachable state QQ can resume any session it has stored, and Discord exactly those with a resume URL. */
  lemma StoredIsResumable(p: Platform, actions: seq<Action>)
    requires After(p, Start(), actions).stored.session.Some?
    ensures var c := After(p, Start(), actions).stored; Resumes(p, c) <==> p.QQ? || c.url
  {
    RunKeepsNumbered(p, Start(), actions);
    hide After;
  }

  lemma DeliverAbandons(p: Platform, s: State, fault: Fault, i: SessionId)
    requires Invariant(s) && AllNumbered(s) && Abandoned(p, s, i)
    ensures Abandoned(p, Step(p, s, Deliver(fault)), i)
  {
    if s.connection.Some? {
      var conn := s.connection.value;
      assert ConnectionOk(s, conn);
      if conn.delivered < |s.logs[conn.session]| && conn.delivered == 0 {
        assert s.logs[conn.session][0].Ready? && s.logs[conn.session][0].session == conn.session;
      }
      hide Behind, HandledUpTo;
    }
  }

  /** A session once abandoned stays so, and none of its frames is handled any more. */
  lemma StepKeepsAbandoned(p: Platform, s: State, a: Action, i: SessionId, k: nat)
    requires Invariant(s) && AllNumbered(s) && Abandoned(p, s, i)
    ensures Abandoned(p, Step(p, s, a), i)
    ensures (i, k) in Step(p, s, a).handled ==> (i, k) in s.handled
  {
    if a.Deliver? { DeliverAbandons(p, s, a.fault, i); }
    hide Behind, HandledUpTo, LogsOk;
  }

  lemma {:induction false} RunKeepsAbandoned(p: Platform, s: State, actions: seq<Action>, i: SessionId, k: nat)
    requires Invariant(s) && AllNumbered(s) && Abandoned(p, s, i)
    ensures (i, k) in After(p, s, actions).handled ==> (i, k) in s.handled
    decreases |actions|
  {
    if actions != [] {
      StepKeepsAbandoned(p, s, actions[0], i, k);
      StepKeepsNumbered(p, s, actions[0]);
      StepKeeps(p, s, actions[0]);
      hide Step, Invariant, AllNumbered, Abandoned;
      RunKeepsAbandoned(p, Step(p, s, actions[0]), actions[1..], i, k);
    }
  }

  /** A delivery that nothing breaks handles its frame. */
  lemma QuietDelivery(p: Platform, s: State)
    requires s.connection.Some? && s.connection.value.session < |s.logs|
    requires s.connection.value.delivered < |s.logs[s.connection.value.session]|
    ensures var conn := s.connection.value; var s' := Step(p, s, Deliver(NoFault));
            && s'.logs == s.logs && s'.connection.Some? && s'.connection.value.session == conn.session
            && s'.connection.value.delivered == conn.delivered + 1 && (conn.session, conn.delivered + 1) in s'.handled
  {
  }

  lemma {:induction false} QuietDeliveries(p: Platform, s: State, k: nat)
    requires s.connection.Some? && s.connection.value.session < |s.logs|
    requires s.connection.value.delivered < k <= |s.logs[s.connection.value.session]|
    ensures exists actions :: (s.connection.value.session, k) in After(p, s, actions).handled
    decreases k - s.connection.value.delivered
  {
    var s' := Step(p, s, Deliver(NoFault));
    QuietDelivery(p, s);
    hide Step;
    if k == s.connection.value.delivered + 1 {
      assert [Deliver(NoFault)][1..] == [];
      assert After(p, s, [Deliver(NoFault)]) == s';
    } else {
      QuietDeliveries(p, s', k);
      var actions :| (s'.connection.value.session, k) in After(p, s', actions).handled;
      assert ([Deliver(NoFault)] + actions)[1..] == actions;
      assert After(p, s, [Deliver(NoFault)] + actions) == After(p, s', actions);
    }
  }

  ghost predicate CanBeHandled(p: Platform, s: State, i: SessionId, k: nat) {
    exists actions :: (i, k) in After(p, s, actions).handled
  }

  /**
    After a disconnect, a logged frame that was not handled can still be handled exactly when
    the stored cursor resumes its session. So an IDENTIFY gives up exactly the unhandled
    frames of all sessions before it, and a RESUME those of all but its own.
   */
  lemma HandledLaterIff(p: Platform, actions: seq<Action>, i: SessionId, k: nat)
    requires var s := After(p, Start(), actions);
             s.connection.None? && i < |s.logs| && 1 <= k <= |s.logs[i]| && (i, k) !in s.handled
    ensures var s := After(p, Start(), actions); CanBeHandled(p, s, i, k) <==> ResumesSession(p, s.stored, i)
  {
    var s := After(p, Start(), actions);
    RunKeeps(p, Start(), actions);
    RunKeepsNumbered(p, Start(), actions);
    if ResumesSession(p, s.stored, i) {
      ResumeRedelivers(p, actions, true, k);
      var s' := Step(p, s, Connect(true));
      assert s'.logs == s.logs && s'.connection.value.session == i;
      hide Step, After;
      QuietDeliveries(p, s', k);
      ConnectFirst(p, s, i, k);
    } else {
      hide After, Invariant, AllNumbered;
      assert Abandoned(p, s, i);
      forall more: seq<Action> ensures (i, k) !in After(p, s, more).handled { RunKeepsAbandoned(p, s, more, i, k); }
    }
  }

  lemma ConnectFirst(p: Platform, s: State, i: SessionId, k: nat)
    requires CanBeHandled(p, Step(p, s, Connect(true)), i, k)
    ensures CanBeHandled(p, s, i, k)
  {
    hide Step;
    var more :| (i, k) in After(p, Step(p, s, Connect(true)), more).handled;
    assert ([Connect(true)] + more)[1..] == more;
    assert After(p, s, [Connect(true)] + more) == After(p, Step(p, s, Connect(true)), more);
  }

  // ---------------------------------------------------------------- invalid sessions

  /** Does the save that an invalid-session frame asks for take effect? */
  predicate SaveLands(fault: Fault) { fault.SaveFails? ==> fault.done }

  /**
    An invalid-session frame ends the connection. The next start is IDENTIFY, and with it the
    unhandled frames of a session are given up, exactly when the cleared cursor was stored or
    the stored cursor did not resume that session anyway; if the save is lost the adapter
    resumes the invalid session.
   */
  lemma InvalidSessionIdentifies(p: Platform, actions: seq<Action>, fault: Fault, i: SessionId, k: nat)
    requires var s := After(p, Start(), actions);
             s.connection.Some? && i < |s.logs| && 1 <= k <= |s.logs[i]| && (i, k) !in s.handled
    ensures var s := After(p, Start(), actions); var s' := After(p, Start(), actions + [Control(InvalidSession, fault)]);
            && s'.connection.None? && (Resumes(p, s'.stored) <==> !SaveLands(fault) && Resumes(p, s.stored))
            && (CanBeHandled(p, s', i, k) <==> !SaveLands(fault) && ResumesSession(p, s.stored, i))
  {
    var s := After(p, Start(), actions);
    var frame := Control(InvalidSession, fault);
    OneMoreStep(p, Start(), actions, frame);
    var s' := Step(p, s, frame);
    assert s'.connection.None? && s'.logs == s.logs && s'.handled == s.handled;
    assert s'.stored == if SaveLands(fault) then EMPTY else s.stored;
    hide Step, After;
    HandledLaterIff(p, actions + [frame], i, k);
  }

  lemma {:induction false} OneMoreStep(p: Platform, s: State, actions: seq<Action>, a: Action)
    ensures After(p, s, actions + [a]) == Step(p, After(p, s, actions), a)
    decreases |actions|
  {
    hide Step;
    if actions == [] {
      assert actions + [a] == [a] && [a][1..] == [];
    } else {
      assert (actions + [a])[1..] == actions[1..] + [a];
      OneMoreStep(p, Step(p, s, actions[0]), actions[1..], a);
    }
  }
}

/** The adapter itself, frame by frame. */
module GatewayCursor {
  import opened Common
  import opened GatewayModel

  /** The repository's row for one subscription. */
  class CursorStore {
    var cursor: Cursor

    constructor ()
      ensures cursor == EMPTY
    {
      cursor := EMPTY;
    }

    /** `save_listener_cursor`; returns false when it raises. */
    method Save(c: Cursor, fault: Fault) returns (ok: bool)
      modifies this
      ensures ok <==> !fault.SaveFails?
      ensures cursor == if fault == SaveFails(false) then old(cursor) else c
    {
      if fault != SaveFails(false) { cursor := c; }
      ok := !fault.SaveFails?;
    }
  }

  class GatewayAdapter {
    const platform: Platform
    const store: CursorStore
    var cursor: Cursor
    var dispatched: nat

    constructor (platform: Platform, store: CursorStore)
      ensures this.platform == platform && this.store == store && cursor == EMPTY && dispatched == 0
    {
      this.platform, this.store := platform, store;
      cursor, dispatched := EMPTY, 0;
    }

    method SaveCursor(fault: Fault, next: Outcome) returns (outcome: Outcome)
      modifies store
      ensures Handled(cursor, store.cursor, true, outcome) == Saved(cursor, old(store.cursor), true, next, fault)
    {
      var ok := store.Save(cursor, fault);
      outcome := if ok then next else Raised;
    }

    method HandleNonDispatch(frame: Frame, fault: Fault) returns (outcome: Outcome)
      requires !frame.Dispatch?
      modifies this`cursor, store
      ensures Handled(cursor, store.cursor, false, outcome) ==
              HandleFrame(platform, old(cursor), old(store.cursor), frame, fault)
    {
      match frame {
        case HeartbeatRequest =>
          outcome := if fault.SendFails? then Raised else Continue;
        case Reconnect =>
          if platform.Discord? { return Leave; }
          cursor := cursor.(url := true);
          outcome := SaveCursor(fault, Leave);
        case InvalidSession =>
          cursor := Cursor(None, None, false);
          outcome := SaveCursor(fault, Leave);
        case _ =>
          outcome := Continue;
      }
    }

    /** `_handle_gateway_frame`: the sequence moves first, the cursor is stored last. */
    method HandleGatewayFrame(frame: Frame, fault: Fault) returns (handled: bool, outcome: Outcome)
      modifies this, store
      ensures Handled(cursor, store.cursor, handled, outcome) ==
              HandleFrame(platform, old(cursor), old(store.cursor), frame, fault)
      ensures dispatched == old(dispatched) +
                if frame.Dispatch? && frame.item == Event(true) && handled then 1 else 0
    {
      handled := false;
      if !frame.Dispatch? {
        outcome := HandleNonDispatch(frame, fault);
        return;
      }
      cursor := cursor.(position := Some(frame.position));
      match frame.item {
        case Malformed =>
          return true, Continue;
        case Ready(session, resumeUrl) =>
          cursor := cursor.(session := Some(session));
          if platform.QQ? || resumeUrl { cursor := cursor.(url := true); }
        case Resumed =>
        case Event(accepted) =>
          if accepted {
            if fault != DispatchFails(false) { dispatched := dispatched + 1; }
            if fault.DispatchFails? { return fault.done, Raised; }
          }
      }
      handled := true;
      outcome := SaveCursor(fault, Continue);
    }
  }
}
