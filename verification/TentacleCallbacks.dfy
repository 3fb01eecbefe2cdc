/** The callbacks a service protocol handle receives (tentacle/tentacle/src/protocol_handle_stream.rs). */
module TentacleCallbacks {
  import opened Common

  type SessionId = nat
  type Bytes = seq<byte>

  /** A session as the handle sees it; `serial` tells apart contexts of the same id. */
  datatype Context = Context(id: SessionId, serial: nat)

  datatype Event =
    | Init
    | Connected(session: Context)
    | Disconnected(id: SessionId)
    | Received(id: SessionId, data: Bytes)
    | SetNotify(token: u64, interval: nat)
    | RemoveNotify(token: u64)
    | Notify(token: u64)
    | Update

  datatype Callback =
    | CallInit
    | CallConnected(session: Context)
    | CallDisconnected(session: Context)
    | CallReceived(session: Context, data: Bytes)
    | CallNotify(token: u64)

  /** When the flags that other tasks set are seen: shutdown at the start, the sessions found closed by the sweep in the
      order they come in, and closed and shutdown again when data is about to be delivered. */
  datatype Timing = Timing(shutdown: bool, swept: seq<SessionId>, closedNow: bool, shutdownNow: bool)

  /** The handle's tables, all callbacks made and all timers started so far. */
  datatype State = State(sessions: map<SessionId, Context>, notify: map<u64, nat>, log: seq<Callback>,
      timers: seq<Timer>)

  /** A delay after which the handle is notified of a token. */
  datatype Timer = Timer(token: u64, interval: nat)

  function Start(): State { State(map[], map[], [], []) }

  /** `set_notify`. */
  function Arm(s: State, token: u64): State {
    if token in s.notify then s.(timers := s.timers + [Timer(token, s.notify[token])]) else s
  }

  /** `sessions.remove` followed by the callback. */
  function Drop(s: State, id: SessionId): State {
    if id in s.sessions then s.(sessions := s.sessions - {id}, log := s.log + [CallDisconnected(s.sessions[id])]) else s
  }

  function Sweep(s: State, ids: seq<SessionId>): State
    decreases |ids|
  {
    if ids == [] then s else Sweep(Drop(s, ids[0]), ids[1..])
  }

  function Dispatch(s: State, event: Event, t: Timing): State {
    match event
    case Init => s.(log := s.log + [CallInit])
    case Connected(session) => s.(sessions := s.sessions[session.id := session],
        log := s.log + [CallConnected(session)])
    case Disconnected(id) => Drop(s, id)
    case Received(id, data) =>
      if id in s.sessions && !t.closedNow && !t.shutdownNow then
          s.(log := s.log + [CallReceived(s.sessions[id], data)]) else s
    case Notify(token) => Arm(s.(log := s.log + [CallNotify(token)]), token)
    case SetNotify(token, interval) =>
      Arm(if token in s.notify then s else s.(notify := s.notify[token := interval]), token)
    case RemoveNotify(token) => s.(notify := s.notify - {token})
    case Update => s
  }

  /** `handle_event`: after shutdown only ends of sessions are looked at; sessions found closed are ended first. */
  function Handled(s: State, event: Event, t: Timing): State {
    if t.shutdown && !event.Disconnected? then s else Dispatch(Sweep(s, t.swept), event, t)
  }

  function Run(events: seq<(Event, Timing)>): State
    decreases |events|
  {
    if events == [] then Start()
    else
      var last := events[|events| - 1];
      Handled(Run(events[..|events| - 1]), last.0, last.1)
  }

  // ---------------------------------------------------------------- the automaton

  /** The context with which this session was last connected, unless it has been disconnected since. */
  function Current(log: seq<Callback>, id: SessionId): Option<Context> {
    if log == [] then None
    else
      var last := log[|log| - 1];
      if last.CallConnected? && last.session.id == id then Some(last.session)
      else if last.CallDisconnected? && last.session.id == id then None
      else Current(log[..|log| - 1], id)
  }

  /** Data and ends are only reported for a session that is connected at that point, and with the context it was
      connected with. */
  predicate Ordered(log: seq<Callback>) {
    forall k :: 0 <= k < |log| && (log[k].CallReceived? || log[k].CallDisconnected?) ==>
      Current(log[..k], log[k].session.id) == Some(log[k].session)
  }

  /** The table holds exactly the sessions the automaton has open. */
  ghost predicate InStep(s: State) {
    && (forall id :: id in s.sessions ==> s.sessions[id].id == id)
    && (forall id :: Current(s.log, id) == if id in s.sessions then Some(s.sessions[id]) else None)
  }

  ghost predicate Inv(s: State) { InStep(s) && Ordered(s.log) }

  lemma LogGrows(log: seq<Callback>, c: Callback, id: SessionId)
    ensures Current(log + [c], id) ==
            if c.CallConnected? && c.session.id == id then Some(c.session)
            else if c.CallDisconnected? && c.session.id == id then None
            else Current(log, id)
  {
    assert (log + [c])[..|log|] == log;
  }

  lemma OrderGrows(log: seq<Callback>, c: Callback)
    requires Ordered(log)
    requires c.CallReceived? || c.CallDisconnected? ==> Current(log, c.session.id) == Some(c.session)
    ensures Ordered(log + [c])
  {
    hide Current;
    var log' := log + [c];
    forall k | 0 <= k < |log'| && (log'[k].CallReceived? || log'[k].CallDisconnected?)
      ensures Current(log'[..k], log'[k].session.id) == Some(log'[k].session)
    {
      if k < |log| {
        assert log'[k] == log[k] && log'[..k] == log[..k];
      } else {
        assert log'[..k] == log;
      }
    }
  }

  lemma DropKeeps(s: State, id: SessionId)
    requires Inv(s)
    ensures Inv(Drop(s, id))
  {
    hide Current, Ordered;
    if id in s.sessions {
      var c := CallDisconnected(s.sessions[id]);
      OrderGrows(s.log, c);
      forall k ensures Current(s.log + [c], k) == if k in s.sessions - {id} then Some(s.sessions[k]) else None {
        LogGrows(s.log, c, k);
      }
    }
  }

  lemma {:induction false} SweepKeeps(s: State, ids: seq<SessionId>)
    requires Inv(s)
    ensures Inv(Sweep(s, ids))
    decreases |ids|
  {
    hide Inv, Drop;
    if ids != [] {
      DropKeeps(s, ids[0]);
      SweepKeeps(Drop(s, ids[0]), ids[1..]);
    }
  }

  lemma ConnectKeeps(s: State, session: Context)
    requires Inv(s)
    ensures Inv(s.(sessions := s.sessions[session.id := session], log := s.log + [CallConnected(session)]))
  {
    hide Current, Ordered;
    var c := CallConnected(session);
    OrderGrows(s.log, c);
    var sessions := s.sessions[session.id := session];
    forall k ensures Current(s.log + [c], k) == if k in sessions then Some(sessions[k]) else None {
      LogGrows(s.log, c, k);
    }
  }

  lemma QuietKeeps(s: State, c: Callback)
    requires Inv(s) && !c.CallConnected? && !c.CallDisconnected?
    requires c.CallReceived? ==> c.session.id in s.sessions && s.sessions[c.session.id] == c.session
    ensures Inv(s.(log := s.log + [c]))
  {
    hide Current, Ordered;
    OrderGrows(s.log, c);
    forall k ensures Current(s.log + [c], k) == Current(s.log, k) { LogGrows(s.log, c, k); }
  }

  lemma EventKeeps(s: State, event: Event, t: Timing)
    requires Inv(s)
    ensures Inv(Handled(s, event, t))
  {
    hide Ordered, Sweep, Drop, Current;
    SweepKeeps(s, t.swept);
    var s1 := Sweep(s, t.swept);
    match event
    case Init => QuietKeeps(s1, CallInit);
    case Connected(session) => ConnectKeeps(s1, session);
    case Disconnected(id) => DropKeeps(s1, id);
    case Received(id, data) => if id in s1.sessions { QuietKeeps(s1, CallReceived(s1.sessions[id], data)); }
    case Notify(token) => QuietKeeps(s1, CallNotify(token));
    case SetNotify(_, _) =>
    case RemoveNotify(_) =>
    case Update =>
  }

  /** For every sequence of events and every moment at which flags turn true: each piece of data and each end is
      reported between the connection of its session and the next end, with the context of that connection, so no end is
      reported twice for one opening; and the table holds exactly the sessions that are open. */
  lemma {:induction false} CallbacksFollowTheAutomaton(events: seq<(Event, Timing)>)
    ensures Ordered(Run(events).log) && InStep(Run(events))
    decreases |events|
  {
    hide Current, Ordered, InStep, Handled;
    if events == [] {
      assert InStep(Start()) by { StartIsInStep(); }
      assert Ordered(Start().log) by { StartIsInStep(); }
    } else {
      var before, last := events[..|events| - 1], events[|events| - 1];
      CallbacksFollowTheAutomaton(before);
      EventKeeps(Run(before), last.0, last.1);
    }
  }

  lemma StartIsInStep()
    ensures InStep(Start()) && Ordered(Start().log)
  {
  }

  /** Between two reported ends of a session there is a reported connection. */
  lemma EndsAreSeparated(events: seq<(Event, Timing)>, i: nat, j: nat)
    requires var log := Run(events).log;
             && i < j < |log| && log[i].CallDisconnected? && log[j].CallDisconnected?
                && log[i].session.id == log[j].session.id
    ensures var log := Run(events).log;
            exists k :: i < k < j && log[k] == CallConnected(log[j].session)
  {
    hide Run;
    CallbacksFollowTheAutomaton(events);
    var log := Run(events).log;
    assert Current(log[..j], log[j].session.id) == Some(log[j].session);
    LastConnection(log[..j], i, log[j].session.id);
    var k :| i < k < j && log[..j][k] == CallConnected(log[j].session);
    assert log[k] == CallConnected(log[j].session);
  }

  /** If a session is open although it was ended at `i`, it was connected after that. */
  lemma {:induction false} LastConnection(log: seq<Callback>, i: nat, id: SessionId)
    requires i < |log| && log[i].CallDisconnected? && log[i].session.id == id && Current(log, id).Some?
    ensures exists k :: i < k < |log| && log[k] == CallConnected(Current(log, id).value)
    decreases |log|
  {
    var n := |log| - 1;
    var last := log[n];
    if last.CallConnected? && last.session.id == id {
      assert i < n;
      assert log[n] == CallConnected(Current(log, id).value);
    } else {
      assert i < n;
      LastConnection(log[..n], i, id);
      var k :| i < k < n && log[..n][k] == CallConnected(Current(log[..n], id).value);
      assert log[k] == CallConnected(Current(log, id).value);
    }
  }

  // ---------------------------------------------------------------- the stream

  class ServiceProtocolStream {
    var sessions: map<SessionId, Context>
    var notify: map<u64, nat>
    var log: seq<Callback>
    var timers: seq<Timer>

    function Value(): State
      reads this
    {
      State(sessions, notify, log, timers)
    }

    constructor ()
      ensures Value() == Start()
    {
      sessions, notify, log, timers := map[], map[], [], [];
    }

    method SetTimer(token: u64)
      modifies `timers
      ensures Value() == Arm(old(Value()), token)
    {
      if token in notify { timers := timers + [Timer(token, notify[token])]; }
    }

    method Remove(id: SessionId)
      modifies `sessions, `log
      ensures Value() == Drop(old(Value()), id)
    {
      if id in sessions {
        var session := sessions[id];
        sessions := sessions - {id};
        log := log + [CallDisconnected(session)];
      }
    }

    method HandleEvent(event: Event, t: Timing)
      modifies this
      ensures Value() == Handled(old(Value()), event, t)
    {
      hide Drop;
      if t.shutdown && !event.Disconnected? { return; }
      ghost var goal := Sweep(Value(), t.swept);
      for i := 0 to |t.swept|
        invariant Sweep(Value(), t.swept[i..]) == goal
      {
        assert t.swept[i..][0] == t.swept[i] && t.swept[i..][1..] == t.swept[i + 1..];
        Remove(t.swept[i]);
      }
      match event
      case Init => log := log + [CallInit];
      case Connected(session) =>
        log := log + [CallConnected(session)];
        sessions := sessions[session.id := session];
      case Disconnected(id) => Remove(id);
      case Received(id, data) =>
        if id in sessions && !t.closedNow && !t.shutdownNow {
          log := log + [CallReceived(sessions[id], data)];
        }
      case Notify(token) =>
        log := log + [CallNotify(token)];
        SetTimer(token);
      case SetNotify(token, interval) =>
        if token !in notify { notify := notify[token := interval]; }
        SetTimer(token);
      case RemoveNotify(token) => notify := notify - {token};
      case Update =>
    }
  }
}
