/** The connector's session table and its index by peer (connector/src/shared.rs). */
module SharedState {
  import opened Common

  type SessionId = nat
  type ProtocolId = nat
  type PeerId = nat

  /** A session as the service reports it; `peer` comes from its public key, if it has one. */
  datatype Context = Context(id: SessionId, address: string, peer: Option<PeerId>)

  /** A session and the protocols for which it has a mailbox. */
  datatype Info = Info(session: Context, mailboxes: set<ProtocolId>)

  datatype State = State(manager: map<SessionId, Info>, index: map<PeerId, seq<SessionId>>)

  function Start(): State { State(map[], map[]) }

  /** `retain(|x| x != id)`. */
  function Without(ids: seq<SessionId>, id: SessionId): seq<SessionId> {
    if ids == [] then [] else (if ids[0] == id then [] else [ids[0]]) + Without(ids[1..], id)
  }

  function Listed(s: State, p: PeerId): seq<SessionId> { if p in s.index then s.index[p] else [] }

  function AddSession(s: State, c: Context): State {
    State(if c.id in s.manager then s.manager else s.manager[c.id := Info(c, {})],
          if c.peer.None? then s.index else s.index[c.peer.value := Listed(s, c.peer.value) + [c.id]])
  }

  /** An index entry that becomes empty goes. */
  function Unlist(index: map<PeerId, seq<SessionId>>, p: PeerId, id: SessionId): map<PeerId, seq<SessionId>> {
    if p !in index then index
    else
      var left := Without(index[p], id);
      if left == [] then index - {p} else index[p := left]
  }

  function RemoveSession(s: State, id: SessionId): (State, Option<Context>) {
    if id !in s.manager then (s, None)
    else
      var c := s.manager[id].session;
      (State(s.manager - {id}, if c.peer.None? then s.index else Unlist(s.index, c.peer.value, c.id)), Some(c))
  }

  function AddProtocol(s: State, c: Context, proto: ProtocolId): State {
    var info := if c.id in s.manager then s.manager[c.id] else Info(c, {});
    s.(manager := s.manager[c.id := info.(mailboxes := info.mailboxes + {proto})])
  }

  function RemoveProtocol(s: State, id: SessionId, proto: ProtocolId): State {
    if id !in s.manager then s
    else s.(manager := s.manager[id := s.manager[id].(mailboxes := s.manager[id].mailboxes - {proto})])
  }

  /** `filter_map` over the index entry. */
  function Lookup(manager: map<SessionId, Info>, ids: seq<SessionId>): seq<Context> {
    if ids == [] then []
    else (if ids[0] in manager then [manager[ids[0]].session] else []) + Lookup(manager, ids[1..])
  }

  function GetPeerSessions(s: State, p: PeerId): seq<Context> { Lookup(s.manager, Listed(s, p)) }

  function GetPeerSession(s: State, p: PeerId): Option<Context> {
    var all := GetPeerSessions(s, p);
    if all == [] || all[0].id !in s.manager then None else Some(s.manager[all[0].id].session)
  }

  // ---------------------------------------------------------------- runs

  datatype Op =
    | Add(c: Context)
    | Remove(id: SessionId)
    | Open(c: Context, proto: ProtocolId)
    | Shut(id: SessionId, proto: ProtocolId)

  function Apply(s: State, op: Op): State {
    match op
    case Add(c) => AddSession(s, c)
    case Remove(id) => RemoveSession(s, id).0
    case Open(c, proto) => AddProtocol(s, c, proto)
    case Shut(id, proto) => RemoveProtocol(s, id, proto)
  }

  function Run(ops: seq<Op>): State
    decreases |ops|
  {
    if ops == [] then Start() else Apply(Run(ops[..|ops| - 1]), ops[|ops| - 1])
  }

  /** The sessions of a peer as the history has them: added, in order, and not removed since. */
  function History(ops: seq<Op>, p: PeerId): seq<SessionId>
    decreases |ops|
  {
    if ops == [] then []
    else
      var before, last := History(ops[..|ops| - 1], p), ops[|ops| - 1];
      match last
      case Add(c) => if c.peer == Some(p) then before + [c.id] else before
      case Remove(id) => Without(before, id)
      case _ => before
  }

  /** Every operation of a run speaks of a session with one and the same context. */
  predicate Consistent(ops: seq<Op>, contextOf: SessionId -> Context) {
    forall k :: 0 <= k < |ops| ==>
      && (ops[k].Add? ==> contextOf(ops[k].c.id) == ops[k].c)
      && (ops[k].Open? ==> contextOf(ops[k].c.id) == ops[k].c)
  }

  // ---------------------------------------------------------------- the table is right

  /** What the history says about one session: the context it came with first since it was last removed, and the
      protocols opened for it and not shut since. */
  function Entry(ops: seq<Op>, id: SessionId): Option<Info>
    decreases |ops|
  {
    if ops == [] then None
    else
      var before, last := Entry(ops[..|ops| - 1], id), ops[|ops| - 1];
      match last
      case Add(c) => if c.id == id && before.None? then Some(Info(c, {})) else before
      case Remove(x) => if x == id then None else before
      case Open(c, proto) =>
        if c.id != id then before
        else if before.None? then Some(Info(c, {proto}))
        else Some(before.value.(mailboxes := before.value.mailboxes + {proto}))
      case Shut(x, proto) =>
        if x != id || before.None? then before
        else Some(before.value.(mailboxes := before.value.mailboxes - {proto}))
  }

  /** After any operations the table holds exactly that. */
  lemma {:induction false} TableIsExact(ops: seq<Op>, id: SessionId)
    ensures Entry(ops, id) == (if id in Run(ops).manager then Some(Run(ops).manager[id]) else None)
    decreases |ops|
  {
    if ops != [] {
      TableIsExact(ops[..|ops| - 1], id);
      var last := ops[|ops| - 1];
      if last.Open? { assert {} + {last.proto} == {last.proto}; }
    }
  }

  // ---------------------------------------------------------------- the index is right

  /** The table holds every listed session, with its one context, and the index has no empty entry. */
  ghost predicate Sound(s: State, contextOf: SessionId -> Context) {
    && (forall id :: id in s.manager ==> s.manager[id].session == contextOf(id) && contextOf(id).id == id)
    && (forall p :: p in s.index ==> s.index[p] != [])
    && (forall p, i :: p in s.index && 0 <= i < |s.index[p]| ==>
          s.index[p][i] in s.manager && contextOf(s.index[p][i]).peer == Some(p))
  }

  lemma {:induction false} WithoutMembers(ids: seq<SessionId>, id: SessionId, x: SessionId)
    ensures x in Without(ids, id) <==> x in ids && x != id
  {
    if ids != [] { WithoutMembers(ids[1..], id, x); }
  }

  lemma {:induction false} WithoutAbsent(ids: seq<SessionId>, id: SessionId)
    requires id !in ids
    ensures Without(ids, id) == ids
  {
    if ids != [] {
      WithoutAbsent(ids[1..], id);
      assert ids == [ids[0]] + ids[1..];
    }
  }

  lemma AddKeeps(s: State, c: Context, contextOf: SessionId -> Context)
    requires Sound(s, contextOf) && contextOf(c.id) == c
    ensures Sound(AddSession(s, c), contextOf)
  {
    var s' := AddSession(s, c);
    forall p, i | p in s'.index && 0 <= i < |s'.index[p]|
      ensures s'.index[p][i] in s'.manager && contextOf(s'.index[p][i]).peer == Some(p)
    {
      if p in s.index && i < |s.index[p]| { assert s'.index[p][i] == s.index[p][i]; }
    }
  }

  lemma RemoveKeeps(s: State, id: SessionId, contextOf: SessionId -> Context)
    requires Sound(s, contextOf)
    ensures Sound(RemoveSession(s, id).0, contextOf)
  {
    var s' := RemoveSession(s, id).0;
    forall p, i | p in s'.index && 0 <= i < |s'.index[p]|
      ensures s'.index[p][i] in s'.manager && contextOf(s'.index[p][i]).peer == Some(p)
    {
      var x := s'.index[p][i];
      if id in s.manager && contextOf(id).peer == Some(p) {
        WithoutMembers(s.index[p], id, x);
      }
      assert x in s.index[p];
      var j :| 0 <= j < |s.index[p]| && s.index[p][j] == x;
    }
  }

  lemma StepKeeps(s: State, op: Op, contextOf: SessionId -> Context)
    requires Sound(s, contextOf) && (op.Add? || op.Open? ==> contextOf(op.c.id) == op.c)
    ensures Sound(Apply(s, op), contextOf)
  {
    match op
    case Add(c) => AddKeeps(s, c, contextOf);
    case Remove(id) => RemoveKeeps(s, id, contextOf);
    case Open(c, proto) =>
    case Shut(id, proto) =>
  }

  lemma {:induction false} RunIsSound(ops: seq<Op>, contextOf: SessionId -> Context)
    requires Consistent(ops, contextOf)
    ensures Sound(Run(ops), contextOf)
    decreases |ops|
  {
    hide Sound, Apply;
    if ops == [] {
      StartIsSound(contextOf);
    } else {
      RunIsSound(ops[..|ops| - 1], contextOf);
      StepKeeps(Run(ops[..|ops| - 1]), ops[|ops| - 1], contextOf);
    }
  }

  lemma StartIsSound(contextOf: SessionId -> Context)
    ensures Sound(Start(), contextOf)
  {
  }

  /** With one context per session id, the index of every peer lists exactly the sessions added and not removed since,
      in the order they were added, and no entry is empty. */
  lemma {:induction false} IndexIsExact(ops: seq<Op>, contextOf: SessionId -> Context, p: PeerId)
    requires Consistent(ops, contextOf)
    ensures Listed(Run(ops), p) == History(ops, p)
    ensures p in Run(ops).index <==> History(ops, p) != []
    decreases |ops|
  {
    hide Sound;
    if ops != [] {
      var before, last := ops[..|ops| - 1], ops[|ops| - 1];
      IndexIsExact(before, contextOf, p);
      RunIsSound(before, contextOf);
      var s := Run(before);
      if last.Remove? { RemovedFromIndex(s, last.id, contextOf, p); }
    }
  }

  lemma RemovedFromIndex(s: State, id: SessionId, contextOf: SessionId -> Context, p: PeerId)
    requires Sound(s, contextOf)
    ensures var s' := RemoveSession(s, id).0;
            Listed(s', p) == Without(Listed(s, p), id) && (p in s'.index <==> Without(Listed(s, p), id) != [])
  {
    if !(id in s.manager && s.manager[id].session.peer == Some(p)) {
      assert id !in Listed(s, p);
      WithoutAbsent(Listed(s, p), id);
    }
  }

  /** Removing a session clears it from every entry exactly when it is listed under no other peer than that of the
      context the table holds for it. */
  lemma RemovalIsExactIff(s: State, id: SessionId)
    requires id in s.manager ==> s.manager[id].session.id == id
    ensures (forall p: PeerId :: Listed(RemoveSession(s, id).0, p) == Without(Listed(s, p), id)) <==>
            (forall p: PeerId :: id in Listed(s, p) ==> id in s.manager && s.manager[id].session.peer == Some(p))
  {
    var s' := RemoveSession(s, id).0;
    forall p: PeerId ensures Listed(s', p) == Without(Listed(s, p), id) <==>
                     (id in Listed(s, p) ==> id in s.manager && s.manager[id].session.peer == Some(p))
    {
      if id !in Listed(s, p) {
        WithoutAbsent(Listed(s, p), id);
      } else if !(id in s.manager && s.manager[id].session.peer == Some(p)) {
        WithoutMembers(Listed(s, p), id, id);
        assert id in Listed(s', p);
      }
    }
  }

  lemma {:induction false} LookupFindsAll(manager: map<SessionId, Info>, ids: seq<SessionId>,
      contextOf: SessionId -> Context)
    requires forall i :: 0 <= i < |ids| ==> ids[i] in manager && manager[ids[i]].session == contextOf(ids[i])
    ensures |Lookup(manager, ids)| == |ids| && forall i :: 0 <= i < |ids| ==>
            Lookup(manager, ids)[i] == contextOf(ids[i])
  {
    if ids != [] {
      LookupFindsAll(manager, ids[1..], contextOf);
      var rest := Lookup(manager, ids[1..]);
      assert Lookup(manager, ids) == [manager[ids[0]].session] + rest;
      forall i | 0 <= i < |ids| ensures Lookup(manager, ids)[i] == contextOf(ids[i]) {
        if i > 0 { assert ids[i] == ids[1..][i - 1]; }
      }
    }
  }

  /** Asking for the sessions of a peer gives all of them, and asking for one gives the oldest. */
  lemma PeerSessionsAreComplete(ops: seq<Op>, contextOf: SessionId -> Context, p: PeerId)
    requires Consistent(ops, contextOf)
    ensures var s, ids := Run(ops), History(ops, p);
            && |GetPeerSessions(s, p)| == |ids|
            && (forall i :: 0 <= i < |ids| ==> GetPeerSessions(s, p)[i] == contextOf(ids[i]))
            && GetPeerSession(s, p) == if ids == [] then None else Some(contextOf(ids[0]))
  {
    hide Run, History;
    RunIsSound(ops, contextOf);
    IndexIsExact(ops, contextOf, p);
    var s := Run(ops);
    LookupFindsAll(s.manager, Listed(s, p), contextOf);
  }

  /** Without that, an entry can outlive its session: the same id added for two peers and then removed. */
  lemma SecondContextIsLeftBehind(a: Context, b: Context)
    requires a.id == b.id && a.peer.Some? && b.peer.Some? && a.peer != b.peer
    ensures var s := Apply(Apply(Apply(Start(), Add(a)), Add(b)), Remove(a.id));
            a.id !in s.manager && Listed(s, b.peer.value) == [a.id]
  {
    var s1 := Apply(Start(), Add(a));
    var s2 := Apply(s1, Add(b));
    assert Listed(s2, b.peer.value) == [] + [b.id];
    assert s2.manager[a.id].session == a;
  }

  // ---------------------------------------------------------------- the object

  class Shared {
    var sessionManager: map<SessionId, Info>
    var peersToSessions: map<PeerId, seq<SessionId>>

    function Value(): State
      reads this
    {
      State(sessionManager, peersToSessions)
    }

    constructor ()
      ensures Value() == Start()
    {
      sessionManager, peersToSessions := map[], map[];
    }

    method AddSession(c: Context)
      modifies this
      ensures Value() == Apply(old(Value()), Add(c))
    {
      if c.peer.Some? {
        var p := c.peer.value;
        if p !in peersToSessions { peersToSessions := peersToSessions[p := []]; }
        peersToSessions := peersToSessions[p := peersToSessions[p] + [c.id]];
      }
      if c.id !in sessionManager { sessionManager := sessionManager[c.id := Info(c, {})]; }
    }

    method RemoveSession(id: SessionId) returns (session: Option<Context>)
      modifies this
      ensures Value() == Apply(old(Value()), Remove(id))
      ensures session == if id in old(sessionManager) then Some(old(sessionManager)[id].session) else None
    {
      if id !in sessionManager { return None; }
      var c := sessionManager[id].session;
      sessionManager := sessionManager - {id};
      if c.peer.Some? {
        var p := c.peer.value;
        if p in peersToSessions {
          peersToSessions := peersToSessions[p := Without(peersToSessions[p], c.id)];
          if peersToSessions[p] == [] { peersToSessions := peersToSessions - {p}; }
        }
      }
      session := Some(c);
    }

    method AddProtocol(c: Context, proto: ProtocolId)
      modifies `sessionManager
      ensures Value() == Apply(old(Value()), Open(c, proto))
    {
      if c.id !in sessionManager { sessionManager := sessionManager[c.id := Info(c, {})]; }
      var info := sessionManager[c.id];
      sessionManager := sessionManager[c.id := info.(mailboxes := info.mailboxes + {proto})];
    }

    method RemoveProtocol(id: SessionId, proto: ProtocolId)
      modifies `sessionManager
      ensures Value() == Apply(old(Value()), Shut(id, proto))
    {
      if id in sessionManager {
        var info := sessionManager[id];
        sessionManager := sessionManager[id := info.(mailboxes := info.mailboxes - {proto})];
      }
    }
  }
}
