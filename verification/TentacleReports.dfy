/** What the handle of a service protocol is told, read off the events alone: which callbacks are made, in which order,
    with which contexts, and which timers run (tentacle/tentacle/src/protocol_handle_stream.rs). */
module TentacleReports {
  import opened Common
  import opened TentacleCallbacks

  type History = seq<(Event, Timing)>

  /** After shutdown only ends of sessions are looked at. */
  predicate Ignored(event: Event, t: Timing) { t.shutdown && !event.Disconnected? }

  // ---------------------------------------------------------------- which sessions are open

  /** The context this session was last connected with, unless an end of it was reported or found since. */
  function Open(h: History, id: SessionId): Option<Context>
    decreases |h|, 0
  {
    if h == [] then None
    else
      var before, (event, t) := h[..|h| - 1], h[|h| - 1];
      if Ignored(event, t) then Open(before, id)
      else if event.Connected? && event.session.id == id then Some(event.session)
      else if event.Disconnected? && event.id == id then None
      else Found(before, t, id)
  }

  /** The same once the sessions found closed are ended. */
  function Found(h: History, t: Timing, id: SessionId): Option<Context>
    decreases |h|, 1
  {
    if id in t.swept then None else Open(h, id)
  }

  // ---------------------------------------------------------------- which callbacks are due

  /** One end for each session found closed, in the order in which they are found. */
  function EndsFound(h: History, swept: seq<SessionId>, gone: set<SessionId>): seq<Callback> {
    if swept == [] then []
    else
      var rest := EndsFound(h, swept[1..], gone + {swept[0]});
      if swept[0] in gone || Open(h, swept[0]).None? then rest
      else [CallDisconnected(Open(h, swept[0]).value)] + rest
  }

  /** The callback for the event itself. */
  function Due(h: History, event: Event, t: Timing): seq<Callback> {
    match event
    case Init => [CallInit]
    case Connected(session) => [CallConnected(session)]
    case Disconnected(id) => if Found(h, t, id).Some? then [CallDisconnected(Found(h, t, id).value)] else []
    case Received(id, data) =>
      if Found(h, t, id).Some? && !t.closedNow && !t.shutdownNow then [CallReceived(Found(h, t, id).value, data)]
          else []
    case Notify(token) => [CallNotify(token)]
    case _ => []
  }

  function Calls(h: History): seq<Callback> {
    if h == [] then []
    else
      var before, (event, t) := h[..|h| - 1], h[|h| - 1];
      Calls(before) + if Ignored(event, t) then [] else EndsFound(before, t.swept, {}) + Due(before, event, t)
  }

  // ---------------------------------------------------------------- which timers run

  /** The interval of the first request for this token since it was last removed. */
  function Wanted(h: History, token: u64): Option<nat> {
    if h == [] then None
    else
      var before, (event, t) := h[..|h| - 1], h[|h| - 1];
      if Ignored(event, t) then Wanted(before, token)
      else if event.RemoveNotify? && event.token == token then None
      else if event.SetNotify? && event.token == token && Wanted(before, token).None? then Some(event.interval)
      else Wanted(before, token)
  }

  /** A timer starts with every request, and again whenever it has run out while it is still wanted. */
  function Timers(h: History): seq<Timer> {
    if h == [] then []
    else
      var before, (event, t) := h[..|h| - 1], h[|h| - 1];
      Timers(before) +
      if !Ignored(event, t) && (event.SetNotify? || event.Notify?) && Wanted(h, event.token).Some?
      then [Timer(event.token, Wanted(h, event.token).value)] else []
  }

  // ---------------------------------------------------------------- proof

  /** The table holds the open sessions, those in `gone` left out. */
  ghost predicate Holds(s: State, h: History, gone: set<SessionId>) {
    forall id :: (if id in s.sessions then Some(s.sessions[id]) else None) == if id in gone then None else Open(h, id)
  }

  lemma DropHolds(s: State, h: History, gone: set<SessionId>, id: SessionId)
    requires Holds(s, h, gone)
    ensures var s' := Drop(s, id);
            && Holds(s', h, gone + {id}) && s'.notify == s.notify && s'.timers == s.timers
            && s'.log == s.log + if id in gone || Open(h, id).None? then [] else [CallDisconnected(Open(h, id).value)]
  {
    hide Open;
    assert s.log + [] == s.log;
    assert (if id in s.sessions then Some(s.sessions[id]) else None) == if id in gone then None else Open(h, id);
  }

  function Among(ids: seq<SessionId>): set<SessionId> { set id | id in ids }

  lemma {:induction false} SweepHolds(s: State, h: History, ids: seq<SessionId>, gone: set<SessionId>)
    requires Holds(s, h, gone)
    ensures var s' := Sweep(s, ids);
            && Holds(s', h, gone + Among(ids)) && s'.notify == s.notify && s'.timers == s.timers
            && s'.log == s.log + EndsFound(h, ids, gone)
    decreases |ids|
  {
    hide Holds, Open, Drop;
    if ids == [] {
      assert gone + Among(ids) == gone && s.log + [] == s.log;
    } else {
      var id := ids[0];
      DropHolds(s, h, gone, id);
      SweepHolds(Drop(s, id), h, ids[1..], gone + {id});
      assert gone + {id} + Among(ids[1..]) == gone + Among(ids) by { assert ids == [id] + ids[1..]; }
      var one := if id in gone || Open(h, id).None? then [] else [CallDisconnected(Open(h, id).value)];
      var rest := EndsFound(h, ids[1..], gone + {id});
      assert EndsFound(h, ids, gone) == one + rest;
      assert s.log + one + rest == s.log + (one + rest);
    }
  }

  /** Table, callbacks, requests and timers are what the events say. */
  ghost predicate Reports(s: State, h: History) {
    && Holds(s, h, {}) && s.log == Calls(h) && s.timers == Timers(h)
    && forall token :: (if token in s.notify then Some(s.notify[token]) else None) == Wanted(h, token)
  }

  lemma FoundHolds(s: State, h: History, t: Timing)
    requires Holds(s, h, Among(t.swept))
    ensures forall id :: (if id in s.sessions then Some(s.sessions[id]) else None) == Found(h, t, id)
  {
  }

  /** The callbacks and the table after one event that is looked at. */
  lemma DispatchReports(s: State, h: History, event: Event, t: Timing)
    requires Holds(s, h, Among(t.swept)) && !Ignored(event, t)
    ensures var h' := h + [(event, t)];
            var s' := Dispatch(s, event, t);
            Holds(s', h', {}) && s'.log == s.log + Due(h, event, t)
  {
    hide Holds;
    var h', s' := h + [(event, t)], Dispatch(s, event, t);
    assert h'[..|h|] == h && s.log + [] == s.log;
    FoundHolds(s, h, t);
    assert Holds(s', h', {}) by {
      forall id ensures (if id in s'.sessions then Some(s'.sessions[id]) else None) == Open(h', id) {
        assert (if id in s.sessions then Some(s.sessions[id]) else None) == Found(h, t, id);
      }
      HoldsAgain(s', h');
    }
  }

  lemma HoldsAgain(s: State, h: History)
    requires forall id :: (if id in s.sessions then Some(s.sessions[id]) else None) == Open(h, id)
    ensures Holds(s, h, {})
  {
  }

  lemma DispatchTimes(s: State, h: History, event: Event, t: Timing)
    requires !Ignored(event, t) && s.timers == Timers(h)
    requires forall token :: (if token in s.notify then Some(s.notify[token]) else None) == Wanted(h, token)
    ensures var h' := h + [(event, t)];
            var s' := Dispatch(s, event, t);
            && s'.timers == Timers(h')
            && forall token :: (if token in s'.notify then Some(s'.notify[token]) else None) == Wanted(h', token)
  {
    var h', s' := h + [(event, t)], Dispatch(s, event, t);
    assert h'[..|h|] == h && s.timers + [] == s.timers;
    forall token ensures (if token in s'.notify then Some(s'.notify[token]) else None) == Wanted(h', token) {
      assert (if token in s.notify then Some(s.notify[token]) else None) == Wanted(h, token);
    }
  }

  lemma EventReports(s: State, h: History, event: Event, t: Timing)
    requires Reports(s, h)
    ensures Reports(Handled(s, event, t), h + [(event, t)])
  {
    hide Holds, Dispatch, Sweep, EndsFound, Due;
    var h', s' := h + [(event, t)], Handled(s, event, t);
    assert h'[..|h|] == h && Calls(h) + [] == Calls(h) && Timers(h) + [] == Timers(h);
    if Ignored(event, t) {
      forall id ensures Open(h', id) == Open(h, id) { }
      SameOpen(s, h, h');
    } else {
      SweepHolds(s, h, t.swept, {});
      assert {} + Among(t.swept) == Among(t.swept);
      var s1 := Sweep(s, t.swept);
      DispatchReports(s1, h, event, t);
      DispatchTimes(s1, h, event, t);
      assert Calls(h) + EndsFound(h, t.swept, {}) + Due(h, event, t)
          == Calls(h) + (EndsFound(h, t.swept, {}) + Due(h, event, t));
    }
  }

  lemma SameOpen(s: State, h: History, h': History)
    requires Holds(s, h, {}) && forall id :: Open(h', id) == Open(h, id)
    ensures Holds(s, h', {})
  {
    hide Open;
  }

  /** For every sequence of events and every moment at which flags turn true: the callbacks made are exactly those due,
      in order, with the context of the last connection; the table holds the open sessions; and a timer runs exactly for
      the tokens that are wanted. */
  lemma {:induction false} CallbacksAreDue(h: History)
    ensures Reports(Run(h), h)
    decreases |h|
  {
    hide Handled;
    if h != [] {
      var before, last := h[..|h| - 1], h[|h| - 1];
      CallbacksAreDue(before);
      EventReports(Run(before), before, last.0, last.1);
      assert before + [(last.0, last.1)] == h;
    }
  }

  // ---------------------------------------------------------------- data

  predicate IsData(c: Callback) { c.CallReceived? }

  function DataOf(log: seq<Callback>): seq<Callback> {
    if log == [] then [] else DataOf(log[..|log| - 1]) + if IsData(log[|log| - 1]) then [log[|log| - 1]] else []
  }

  /** The data that arrive for a session connected at that point, while neither it is closed nor the service shut
      down. */
  function Arrivals(h: History): seq<Callback> {
    if h == [] then []
    else
      var before, (event, t) := h[..|h| - 1], h[|h| - 1];
      Arrivals(before) +
      if event.Received? && !t.shutdown && !t.closedNow && !t.shutdownNow && Found(before, t, event.id).Some?
      then [CallReceived(Found(before, t, event.id).value, event.data)] else []
  }

  lemma {:induction false} DataConcat(a: seq<Callback>, b: seq<Callback>)
    ensures DataOf(a + b) == DataOf(a) + DataOf(b)
    decreases |b|
  {
    if b == [] {
      assert a + b == a && DataOf(a) + [] == DataOf(a);
    } else {
      var n := |b| - 1;
      DataConcat(a, b[..n]);
      assert (a + b)[..|a| + n] == a + b[..n] && (a + b)[|a| + n] == b[n];
      var one := if IsData(b[n]) then [b[n]] else [];
      assert DataOf(a) + DataOf(b[..n]) + one == DataOf(a) + (DataOf(b[..n]) + one);
    }
  }

  lemma {:induction false} EndsAreNoData(h: History, swept: seq<SessionId>, gone: set<SessionId>)
    ensures DataOf(EndsFound(h, swept, gone)) == []
    decreases |swept|
  {
    hide Open;
    if swept != [] {
      EndsAreNoData(h, swept[1..], gone + {swept[0]});
      var rest := EndsFound(h, swept[1..], gone + {swept[0]});
      if EndsFound(h, swept, gone) != rest {
        var one := CallDisconnected(Open(h, swept[0]).value);
        DataConcat([one], rest);
        OneCall(one);
      }
    }
  }

  lemma OneCall(c: Callback)
    ensures DataOf([c]) == if IsData(c) then [c] else []
  {
    assert [c][..0] == [];
  }

  lemma DueData(h: History, event: Event, t: Timing)
    ensures DataOf(EndsFound(h, t.swept, {}) + Due(h, event, t)) ==
            if event.Received? && !t.closedNow && !t.shutdownNow && Found(h, t, event.id).Some?
            then [CallReceived(Found(h, t, event.id).value, event.data)] else []
  {
    hide Open, EndsFound, Found;
    var ends, due := EndsFound(h, t.swept, {}), Due(h, event, t);
    DataConcat(ends, due);
    EndsAreNoData(h, t.swept, {});
    if due != [] { OneCall(due[0]); }
  }

  lemma {:induction false} DueDataArrive(h: History)
    ensures DataOf(Calls(h)) == Arrivals(h)
    decreases |h|
  {
    hide Open, EndsFound, Due, Found, DataOf;
    if h == [] {
      assert DataOf([]) == [] by { NoData(); }
    } else {
      var before := h[..|h| - 1];
      var (event, t) := h[|h| - 1];
      DueDataArrive(before);
      assert Calls(before) + [] == Calls(before) && Arrivals(before) + [] == Arrivals(before);
      if !Ignored(event, t) {
        DueData(before, event, t);
        DataConcat(Calls(before), EndsFound(before, t.swept, {}) + Due(before, event, t));
      }
    }
  }

  lemma NoData()
    ensures DataOf([]) == []
  {
  }

  /** No piece of data is lost, delivered twice, out of order, or to a session that is not open. */
  lemma DataAreDelivered(h: History)
    ensures DataOf(Run(h).log) == Arrivals(h)
  {
    hide Run;
    CallbacksAreDue(h);
    DueDataArrive(h);
  }
}
