/** The sessions a node holds in one role, publisher or subscriber, for all of its peers. */
module NodeSessions {
  import opened Samples
  import opened Handshake

  type Peer = nat

  datatype Session = Session(peer: Peer, status: Status)

  /** `registered` maps a peer to its session and `ids` holds the ids of the registered sessions; `sessions` stands for
      all session objects ever made. */
  datatype Table = Table(registered: map<Peer, Sid>, ids: set<Sid>, sessions: map<Sid, Session>, next: Sid)

  const EMPTY_TABLE := Table(map[], {}, map[], 0)

  /** What the table holds for one peer. */
  function RoleFor(t: Table, p: Peer): Role {
    Role(if p in t.registered then Some(t.registered[p]) else None,
         map id | id in t.sessions && t.sessions[id].peer == p :: t.sessions[id].status)
  }

  ghost predicate RegisteredOk(t: Table) {
    forall p :: p in t.registered ==> t.registered[p] in t.sessions && t.sessions[t.registered[p]].peer == p
  }

  ghost predicate LiveOk(t: Table) {
    forall id :: id in t.sessions ==>
      (t.sessions[id].status != Destroyed <==>
        t.sessions[id].peer in t.registered && t.registered[t.sessions[id].peer] == id)
  }

  /** Both indexes name exactly the sessions that are alive, and ids are not reused. */
  ghost predicate TableOk(t: Table) {
    && RegisteredOk(t)
    && LiveOk(t)
    && (forall id :: id in t.ids <==> id in t.sessions && t.sessions[id].status != Destroyed)
    && (forall id :: id in t.sessions ==> 0 < id <= t.next)
  }

  /** The table of a node, seen from one peer, is a role of the handshake. */
  lemma TableGivesRoles(t: Table, p: Peer)
    requires TableOk(t)
    ensures RoleOk(RoleFor(t, p))
  {
    var r := RoleFor(t, p);
    forall id | id in r.status ensures r.status[id] != Destroyed <==> r.current == Some(id) {
      assert id in t.sessions;
    }
  }

  function WithStatus(t: Table, id: Sid, s: Status): Table
    requires id in t.sessions
  {
    t.(sessions := t.sessions[id := t.sessions[id].(status := s)])
  }

  /** A status change of one session is seen by its peer alone. */
  lemma StatusChange(t: Table, id: Sid, s: Status, p: Peer)
    requires id in t.sessions
    ensures RoleFor(WithStatus(t, id, s), p) ==
      if t.sessions[id].peer == p then RoleFor(t, p).(status := RoleFor(t, p).status[id := s]) else RoleFor(t, p)
  {
    var t' := WithStatus(t, id, s);
    if t.sessions[id].peer == p {
      assert RoleFor(t', p).status == RoleFor(t, p).status[id := s];
    } else {
      assert RoleFor(t', p).status == RoleFor(t, p).status;
    }
  }

  function Registered(t: Table, p: Peer): Table {
    var id := t.next + 1;
    Table(t.registered[p := id], t.ids + {id}, t.sessions[id := Session(p, Idle)], id)
  }

  lemma RegisterKeeps(t: Table, p: Peer, q: Peer)
    requires TableOk(t) && p !in t.registered
    ensures TableOk(Registered(t, p))
    ensures RoleFor(Registered(t, p), q) == if q == p then Ensure(RoleFor(t, p), t.next + 1) else RoleFor(t, q)
  {
    var t', id := Registered(t, p), t.next + 1;
    assert id !in t.sessions;
    if q == p {
      assert RoleFor(t', q).status == RoleFor(t, p).status[id := Idle];
    } else {
      assert RoleFor(t', q).status == RoleFor(t, q).status;
    }
  }

  function Unregistered(t: Table, id: Sid): Table
    requires id in t.sessions
  {
    WithStatus(t, id, Destroyed).(registered := t.registered - {t.sessions[id].peer}, ids := t.ids - {id})
  }

  lemma UnregisterKeeps(t: Table, id: Sid, q: Peer)
    requires TableOk(t) && id in t.sessions && t.sessions[id].status != Destroyed
    ensures TableOk(Unregistered(t, id))
    ensures RoleFor(Unregistered(t, id), q) ==
      if q == t.sessions[id].peer then Drop(RoleFor(t, q), id) else RoleFor(t, q)
  {
    StatusChange(t, id, Destroyed, q);
  }

  datatype Outcome = SessionNotFound | AlreadyConnected | Accepted(id: Sid)

  class NodeSessions {
    var registered: map<Peer, Sid>
    var ids: set<Sid>
    var sessions: map<Sid, Session>
    var next: Sid

    function State(): Table
      reads this
    {
      Table(registered, ids, sessions, next)
    }

    constructor ()
      ensures State() == EMPTY_TABLE && TableOk(State())
    {
      registered, ids, sessions, next := map[], {}, map[], 0;
    }

    /** createSubscriberSessionServant and createPublisherSessionServant. */
    method CreateServant(p: Peer) returns (id: Sid)
      requires TableOk(State())
      modifies this
      ensures TableOk(State()) && RoleFor(State(), p).current == Some(id)
      ensures RoleFor(State(), p) == Ensure(RoleFor(old(State()), p), id)
      ensures old(p !in registered) ==> old(id !in sessions)
      ensures forall q :: q != p ==> RoleFor(State(), q) == RoleFor(old(State()), q)
    {
      if p in registered {
        id := registered[p];
      } else {
        forall q ensures TableOk(Registered(State(), p)) && RoleFor(Registered(State(), p), q) ==
          if q == p then Ensure(RoleFor(State(), p), next + 1) else RoleFor(State(), q)
        {
          RegisterKeeps(State(), p, q);
        }
        next := next + 1;
        id := next;
        registered := registered[p := id];
        ids := ids + {id};
        sessions := sessions[id := Session(p, Idle)];
      }
    }

    method SetStatus(id: Sid, s: Status)
      requires TableOk(State()) && id in sessions && sessions[id].status != Destroyed && s != Destroyed
      modifies this`sessions
      ensures TableOk(State()) && State() == WithStatus(old(State()), id, s)
      ensures forall q :: q != old(sessions[id].peer) ==> RoleFor(State(), q) == RoleFor(old(State()), q)
      ensures var p := old(sessions[id].peer);
        RoleFor(State(), p) == RoleFor(old(State()), p).(status := RoleFor(old(State()), p).status[id := s])
    {
      forall q ensures RoleFor(WithStatus(State(), id, s), q) ==
        if sessions[id].peer == q then RoleFor(State(), q).(status := RoleFor(State(), q).status[id := s])
        else RoleFor(State(), q)
      {
        StatusChange(State(), id, s, q);
      }
      sessions := sessions[id := sessions[id].(status := s)];
    }

    /** SessionI::connected. */
    method Connected(id: Sid, c: Conn)
      requires TableOk(State()) && id in sessions
      modifies this`sessions
      ensures TableOk(State())
      ensures RoleFor(State(), old(sessions[id].peer)) == Connect(RoleFor(old(State()), old(sessions[id].peer)), id, c)
      ensures id in sessions && sessions[id].status ==
        if old(sessions[id].status == Idle) then Status.Connected(c) else old(sessions[id].status)
      ensures forall q :: q != old(sessions[id].peer) ==> RoleFor(State(), q) == RoleFor(old(State()), q)
    {
      if !sessions[id].status.Idle? {
        return;
      }
      SetStatus(id, Status.Connected(c));
    }

    /** disconnectedImpl: ignored by a session that is connected over another connection. */
    method Disconnected(id: Sid, c: Conn)
      requires TableOk(State()) && id in sessions
      modifies this`sessions
      ensures TableOk(State())
      ensures RoleFor(State(), old(sessions[id].peer)) == Close(RoleFor(old(State()), old(sessions[id].peer)), id, c)
      ensures id in sessions && sessions[id].status ==
        if old(sessions[id].status.Connected? && (c == None || sessions[id].status.connection == c)) then Idle
        else old(sessions[id].status)
      ensures forall q :: q != old(sessions[id].peer) ==> RoleFor(State(), q) == RoleFor(old(State()), q)
    {
      if !sessions[id].status.Connected? {
        return;
      }
      if c.Some? && sessions[id].status.connection != c {
        return;
      }
      SetStatus(id, Idle);
    }

    /** confirmCreateSession, on the node of the subscriber: the session is connected before the answer is given. */
    method ConfirmCreateSession(publisher: Peer, c: Conn) returns (o: Outcome)
      requires TableOk(State())
      modifies this`sessions
      ensures TableOk(State())
      ensures o.SessionNotFound? <==> RoleFor(old(State()), publisher).current.None?
      ensures o.AlreadyConnected? ==> IsConnected(RoleFor(old(State()), publisher), old(registered)[publisher])
      ensures !o.Accepted? ==> State() == old(State())
      ensures o.Accepted? ==>
        && RoleFor(old(State()), publisher).current == Some(o.id)
        && !IsConnected(RoleFor(old(State()), publisher), o.id)
        && RoleFor(State(), publisher) == Connect(RoleFor(old(State()), publisher), o.id, c)
        && IsConnected(RoleFor(State(), publisher), o.id)
      ensures forall q :: q != publisher ==> RoleFor(State(), q) == RoleFor(old(State()), q)
    {
      if publisher !in registered {
        return SessionNotFound;
      }
      var id := registered[publisher];
      if sessions[id].status.Connected? {
        return AlreadyConnected;
      }
      assert sessions[id].status.Idle?;
      Connected(id, c);
      return Accepted(id);
    }

    /** removeSubscriberSession and removePublisherSession: nothing for a session that is connected, or not registered
        any more. */
    method Remove(id: Sid)
      requires TableOk(State()) && id in sessions
      modifies this
      ensures TableOk(State())
      ensures RoleFor(State(), old(sessions[id].peer)) ==
        if old(sessions[id].status.Connected?) then RoleFor(old(State()), old(sessions[id].peer))
        else Drop(RoleFor(old(State()), old(sessions[id].peer)), id)
      ensures forall q :: q != old(sessions[id].peer) ==> RoleFor(State(), q) == RoleFor(old(State()), q)
    {
      var p := sessions[id].peer;
      if sessions[id].status.Connected? || p !in registered || registered[p] != id {
        return;
      }
      forall q ensures TableOk(Unregistered(State(), id)) && RoleFor(Unregistered(State(), id), q) ==
        if q == p then Drop(RoleFor(State(), q), id) else RoleFor(State(), q)
      {
        UnregisterKeeps(State(), id, q);
      }
      registered := registered - {p};
      ids := ids - {id};
      sessions := sessions[id := sessions[id].(status := Destroyed)];
    }
  }
}
