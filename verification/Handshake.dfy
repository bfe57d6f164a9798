/** The session handshake between a publisher node and a subscriber node: createSession, confirmCreateSession and the
    confirmation's response, with any number of attempts in flight, lost messages, closed connections and removed
    sessions. */
module Handshake {
  import opened Samples

  type Sid = nat
  type Attempt = nat
  /** None is a collocated call. */
  type Conn = Option<nat>

  datatype Status = Idle | Connected(connection: Conn) | Destroyed

  /** What one node holds for its peer: the registered session, and the status of every session it ever made. */
  datatype Role = Role(current: Option<Sid>, status: map<Sid, Status>)

  // ----- what happens to the sessions of one node -----

  /** create*SessionServant: the registered session, or a new one. */
  function Ensure(r: Role, id: Sid): Role {
    if r.current.Some? then r else Role(Some(id), r.status[id := Idle])
  }

  predicate IsConnected(r: Role, id: Sid) {
    id in r.status && r.status[id].Connected?
  }

  /** SessionI::connected: nothing for a session that is destroyed or connected already. */
  function Connect(r: Role, id: Sid, c: Conn): Role {
    if id in r.status && r.status[id].Idle? then r.(status := r.status[id := Connected(c)]) else r
  }

  /** Whether a disconnection notified over `c` concerns the session: not when it is connected over something else. */
  predicate Closes(r: Role, id: Sid, c: Conn) {
    IsConnected(r, id) && (c.None? || r.status[id].connection == c)
  }

  function Close(r: Role, id: Sid, c: Conn): Role {
    if Closes(r, id, c) then r.(status := r.status[id := Idle]) else r
  }

  /** Unregisters and destroys a session, if it is the registered one. */
  function Drop(r: Role, id: Sid): Role {
    if r.current == Some(id) then Role(None, r.status[id := Destroyed]) else r
  }

  /** Exactly the registered session is alive. */
  ghost predicate RoleOk(r: Role) {
    && (r.current.Some? ==> r.current.value in r.status)
    && (forall id :: id in r.status ==> (r.status[id] != Destroyed <==> r.current == Some(id)))
  }

  // ----- the two nodes and the messages between them -----

  /** A confirmation on its way to the subscriber, or its response on the way back. */
  datatype Confirm = Confirm(session: Sid, connection: Conn)

  /** The subscriber is connected by a confirmation, over the connection it arrived on. That is the connection it was
      sent over when the nodes are connected directly, and another one when the confirmation comes through a relay. */
  datatype Event =
    | SubConnected(attempt: Attempt, sentOver: Conn, connection: Conn)
    | SubDisconnected
    | PubConnected(attempt: Attempt, session: Sid, connection: Conn)
    | PubDisconnected(session: Sid)

  /** `opening` holds the creation requests whose connection is not known yet, each by its publisher session. */
  datatype World = World(
    pub: Role, sub: Role,
    creates: nat, opening: multiset<Sid>,
    confirms: map<Attempt, Confirm>, responses: map<Attempt, Confirm>, next: Attempt,
    log: seq<Event>)

  const INITIAL := World(Role(None, map[]), Role(None, map[]), 0, multiset{}, map[], map[], 0, [])

  datatype Step =
    | Start(id: Sid)
    | CreateSession(id: Sid)
    | ConnectionReady(session: Sid, connection: Conn)
    | ConnectionFailed(session: Sid)
    | ConfirmCreateSession(attempt: Attempt, connection: Conn)
    | Confirmed(attempt: Attempt)
    | Lost(attempt: Attempt)
    | SubClose(connection: Conn)
    | PubClose(session: Sid, connection: Conn)
    | RemoveSub(session: Sid)
    | RemovePub(session: Sid)

  /** New sessions get ids that were not used before; messages are delivered at most once. */
  predicate Enabled(w: World, s: Step) {
    match s
    case Start(id) => id !in w.sub.status
    case CreateSession(id) => w.creates > 0 && id !in w.pub.status
    case ConnectionReady(p, _) => p in w.opening
    case ConnectionFailed(p) => p in w.opening
    case ConfirmCreateSession(k, _) => k in w.confirms
    case Confirmed(k) => k in w.responses
    case Lost(k) => k in w.confirms || k in w.responses
    case RemoveSub(id) => !IsConnected(w.sub, id)
    case _ => true
  }

  predicate SubIsConnected(w: World) {
    w.sub.current.Some? && IsConnected(w.sub, w.sub.current.value)
  }

  /** createPublisherSession: a subscriber whose session is connected does not ask for another one. */
  function DoStart(w: World, id: Sid): World {
    var sub := Ensure(w.sub, id);
    w.(sub := sub, creates := if SubIsConnected(w.(sub := sub)) then w.creates else w.creates + 1)
  }

  /** createSession, up to the point where it waits for the connection. */
  function DoCreateSession(w: World, id: Sid): World
    requires w.creates > 0
  {
    var pub := Ensure(w.pub, id);
    w.(pub := pub, creates := w.creates - 1, opening := w.opening + multiset{pub.current.value})
  }

  /** createSession, once the connection is known: refused if the publisher session is connected by now, else the
      confirmation is sent over the connection. */
  function DoConnectionReady(w: World, p: Sid, c: Conn): World {
    var w1 := w.(opening := w.opening - multiset{p});
    if IsConnected(w.pub, p) then w1
    else w1.(confirms := w.confirms[w.next := Confirm(p, c)], next := w.next + 1)
  }

  /** confirmCreateSession: refused without a session or with a connected one, else the session is connected first and
      the response sent afterwards. `c` is the connection the confirmation arrives on. */
  function DoConfirm(w: World, k: Attempt, c: Conn): World
    requires k in w.confirms
  {
    var m := w.confirms[k];
    var w1 := w.(confirms := w.confirms - {k});
    if w.sub.current.None? || SubIsConnected(w) then w1
    else
      w1.(sub := Connect(w.sub, w.sub.current.value, c),
          responses := w.responses[k := m],
          log := w.log + [SubConnected(k, m.connection, c)])
  }

  /** The response of the confirmation arrives: the publisher session is connected, if it still can be. */
  function DoConfirmed(w: World, k: Attempt): World
    requires k in w.responses
  {
    var m := w.responses[k];
    var w1 := w.(responses := w.responses - {k});
    if m.session in w.pub.status && w.pub.status[m.session].Idle? then
      w1.(pub := Connect(w.pub, m.session, m.connection), log := w.log + [PubConnected(k, m.session, m.connection)])
    else w1
  }

  function DoSubClose(w: World, c: Conn): World {
    if w.sub.current.Some? && Closes(w.sub, w.sub.current.value, c) then
      w.(sub := Close(w.sub, w.sub.current.value, c), log := w.log + [SubDisconnected])
    else w
  }

  function DoPubClose(w: World, p: Sid, c: Conn): World {
    if Closes(w.pub, p, c) then w.(pub := Close(w.pub, p, c), log := w.log + [PubDisconnected(p)]) else w
  }

  /** A publisher session can be connected between the check that it is not and its destruction. */
  function DoRemovePub(w: World, p: Sid): World {
    w.(pub := Drop(w.pub, p),
       log := if w.pub.current == Some(p) && IsConnected(w.pub, p) then w.log + [PubDisconnected(p)] else w.log)
  }

  function Next(w: World, s: Step): World
    requires Enabled(w, s)
  {
    match s
    case Start(id) => DoStart(w, id)
    case CreateSession(id) => DoCreateSession(w, id)
    case ConnectionReady(p, c) => DoConnectionReady(w, p, c)
    case ConnectionFailed(p) => w.(opening := w.opening - multiset{p})
    case ConfirmCreateSession(k, c) => DoConfirm(w, k, c)
    case Confirmed(k) => DoConfirmed(w, k)
    case Lost(k) => w.(confirms := w.confirms - {k}, responses := w.responses - {k})
    case SubClose(c) => DoSubClose(w, c)
    case PubClose(p, c) => DoPubClose(w, p, c)
    case RemoveSub(id) => w.(sub := Drop(w.sub, id))
    case RemovePub(p) => DoRemovePub(w, p)
  }

  predicate Possible(ss: seq<Step>)
    decreases |ss|, 0
  {
    ss == [] || (Possible(ss[..|ss| - 1]) && Enabled(After(ss[..|ss| - 1]), ss[|ss| - 1]))
  }

  function After(ss: seq<Step>): World
    requires Possible(ss)
    decreases |ss|, 1
  {
    if ss == [] then INITIAL else Next(After(ss[..|ss| - 1]), ss[|ss| - 1])
  }

  // ----- what the log says -----

  /** The attempt and connection the subscriber is connected by, after the given events. */
  function SubAfter(log: seq<Event>): Option<(Attempt, Conn)> {
    if log == [] then None
    else
      match log[|log| - 1]
      case SubConnected(k, _, c) => Some((k, c))
      case SubDisconnected => None
      case _ => SubAfter(log[..|log| - 1])
  }

  /** The connection a publisher session is connected over, after the given events. */
  function PubAfter(log: seq<Event>, p: Sid): Option<Conn> {
    if log == [] then None
    else
      match log[|log| - 1]
      case PubConnected(_, q, c) => if q == p then Some(c) else PubAfter(log[..|log| - 1], p)
      case PubDisconnected(q) => if q == p then None else PubAfter(log[..|log| - 1], p)
      case _ => PubAfter(log[..|log| - 1], p)
  }

  predicate AcceptedBy(log: seq<Event>, k: Attempt) {
    exists i :: 0 <= i < |log| && log[i].SubConnected? && log[i].attempt == k
  }

  predicate AcceptedOver(log: seq<Event>, k: Attempt, sentOver: Conn) {
    exists i :: 0 <= i < |log| && log[i].SubConnected? && log[i].attempt == k && log[i].sentOver == sentOver
  }

  predicate AnsweredBy(log: seq<Event>, k: Attempt) {
    exists i :: 0 <= i < |log| && log[i].PubConnected? && log[i].attempt == k
  }

  /** What may follow a log: the subscriber accepts a new attempt while it is not connected; the publisher connects by
      an attempt that was accepted, over the connection it was sent over, and was not used before. */
  predicate MayFollow(log: seq<Event>, e: Event) {
    match e
    case SubConnected(k, _, _) => SubAfter(log).None? && !AcceptedBy(log, k)
    case SubDisconnected => SubAfter(log).Some?
    case PubConnected(k, p, c) => AcceptedOver(log, k, c) && !AnsweredBy(log, k) && PubAfter(log, p).None?
    case PubDisconnected(p) => PubAfter(log, p).Some?
  }

  predicate Orderly(log: seq<Event>) {
    log == [] || (Orderly(log[..|log| - 1]) && MayFollow(log[..|log| - 1], log[|log| - 1]))
  }

  // ----- the invariant -----

  ghost predicate SubOk(sub: Role, log: seq<Event>) {
    && RoleOk(sub)
    && (SubAfter(log).Some? <==> sub.current.Some? && IsConnected(sub, sub.current.value))
    && (SubAfter(log).Some? ==> sub.status[sub.current.value].connection == SubAfter(log).value.1)
  }

  ghost predicate PubConnectedOk(pub: Role, log: seq<Event>, p: Sid) {
    && (PubAfter(log, p).Some? <==> IsConnected(pub, p))
    && (PubAfter(log, p).Some? ==> pub.status[p].connection == PubAfter(log, p).value)
  }

  ghost predicate PubOk(pub: Role, log: seq<Event>) {
    RoleOk(pub) && forall p: Sid :: PubConnectedOk(pub, log, p)
  }

  ghost predicate MessagesOk(w: World) {
    && (forall k :: k in w.confirms ==> k < w.next && k !in w.responses && !AcceptedBy(w.log, k))
    && (forall k :: k in w.responses ==>
      k < w.next && AcceptedOver(w.log, k, w.responses[k].connection) && !AnsweredBy(w.log, k))
    && (forall k: Attempt :: AcceptedBy(w.log, k) ==> k < w.next)
  }

  ghost predicate Inv(w: World) {
    Orderly(w.log) && SubOk(w.sub, w.log) && PubOk(w.pub, w.log) && MessagesOk(w)
  }

  lemma Snoc(log: seq<Event>, e: Event)
    ensures Orderly(log + [e]) <==> Orderly(log) && MayFollow(log, e)
    ensures forall k :: AcceptedBy(log + [e], k) <==> AcceptedBy(log, k) || (e.SubConnected? && e.attempt == k)
    ensures forall k :: AnsweredBy(log + [e], k) <==> AnsweredBy(log, k) || (e.PubConnected? && e.attempt == k)
    ensures forall k, c :: AcceptedOver(log + [e], k, c) <==>
      AcceptedOver(log, k, c) || (e.SubConnected? && e.attempt == k && e.sentOver == c)
  {
    var all := log + [e];
    assert all[..|log|] == log && all[|log|] == e;
    forall k ensures AcceptedBy(all, k) <==> AcceptedBy(log, k) || (e.SubConnected? && e.attempt == k) {
      if i :| 0 <= i < |log| && log[i].SubConnected? && log[i].attempt == k {
        assert all[i] == log[i];
      }
    }
    forall k, c ensures AcceptedOver(all, k, c) <==>
      AcceptedOver(log, k, c) || (e.SubConnected? && e.attempt == k && e.sentOver == c)
    {
      if i :| 0 <= i < |log| && log[i].SubConnected? && log[i].attempt == k && log[i].sentOver == c {
        assert all[i] == log[i];
      }
    }
    forall k ensures AnsweredBy(all, k) <==> AnsweredBy(log, k) || (e.PubConnected? && e.attempt == k) {
      if i :| 0 <= i < |log| && log[i].PubConnected? && log[i].attempt == k {
        assert all[i] == log[i];
      }
    }
  }

  lemma SubSnoc(log: seq<Event>, e: Event)
    ensures SubAfter(log + [e]) ==
      match e
      case SubConnected(k, _, c) => Some((k, c))
      case SubDisconnected => None
      case _ => SubAfter(log)
  {
    assert (log + [e])[..|log|] == log;
  }

  lemma PubSnoc(log: seq<Event>, e: Event, p: Sid)
    ensures PubAfter(log + [e], p) ==
      match e
      case PubConnected(_, q, c) => if q == p then Some(c) else PubAfter(log, p)
      case PubDisconnected(q) => if q == p then None else PubAfter(log, p)
      case _ => PubAfter(log, p)
  {
    assert (log + [e])[..|log|] == log;
  }

  // ----- each step keeps the invariant -----

  lemma StartKeepsInv(w: World, id: Sid)
    requires Inv(w) && id !in w.sub.status
    ensures Inv(DoStart(w, id))
  {
    var r := Ensure(w.sub, id);
    assert RoleOk(r);
  }

  lemma CreateSessionKeepsInv(w: World, id: Sid)
    requires Inv(w) && w.creates > 0 && id !in w.pub.status
    ensures Inv(DoCreateSession(w, id))
  {
    var r := Ensure(w.pub, id);
    assert RoleOk(r);
    forall p: Sid ensures PubConnectedOk(r, w.log, p) {
      assert PubConnectedOk(w.pub, w.log, p);
    }
  }

  lemma ConnectionReadyKeepsInv(w: World, p: Sid, c: Conn)
    requires Inv(w)
    ensures Inv(DoConnectionReady(w, p, c))
  {
  }

  lemma ConfirmKeepsMessages(w: World, k: Attempt, c: Conn)
    requires MessagesOk(w) && k in w.confirms && !AnsweredBy(w.log, k)
    ensures MessagesOk(DoConfirm(w, k, c))
  {
    Snoc(w.log, SubConnected(k, w.confirms[k].connection, c));
  }

  /** Only accepted attempts are answered. */
  lemma {:induction false} AnsweredWasAccepted(log: seq<Event>, k: Attempt)
    requires Orderly(log) && AnsweredBy(log, k)
    ensures AcceptedBy(log, k)
  {
    var init, e := log[..|log| - 1], log[|log| - 1];
    assert log == init + [e];
    Snoc(init, e);
    if AnsweredBy(init, k) {
      AnsweredWasAccepted(init, k);
    } else {
      assert AcceptedOver(init, k, e.connection);
    }
  }

  lemma ConfirmKeepsSub(sub: Role, log: seq<Event>, k: Attempt, sentOver: Conn, c: Conn)
    requires SubOk(sub, log) && sub.current.Some? && !IsConnected(sub, sub.current.value)
    ensures SubOk(Connect(sub, sub.current.value, c), log + [SubConnected(k, sentOver, c)]) && SubAfter(log).None?
  {
    SubSnoc(log, SubConnected(k, sentOver, c));
    assert sub.status[sub.current.value].Idle?;
  }

  lemma OtherEventKeepsPub(pub: Role, log: seq<Event>, e: Event)
    requires PubOk(pub, log) && (e.SubConnected? || e.SubDisconnected?)
    ensures PubOk(pub, log + [e])
  {
    forall p: Sid ensures PubConnectedOk(pub, log + [e], p) {
      PubSnoc(log, e, p);
      assert PubConnectedOk(pub, log, p);
    }
  }

  lemma ConfirmKeepsInv(w: World, k: Attempt, c: Conn)
    requires Inv(w) && k in w.confirms
    ensures Inv(DoConfirm(w, k, c))
  {
    if AnsweredBy(w.log, k) {
      AnsweredWasAccepted(w.log, k);
      assert false;
    }
    ConfirmKeepsMessages(w, k, c);
    if w.sub.current.Some? && !SubIsConnected(w) {
      var sentOver := w.confirms[k].connection;
      ConfirmKeepsSub(w.sub, w.log, k, sentOver, c);
      Snoc(w.log, SubConnected(k, sentOver, c));
      OtherEventKeepsPub(w.pub, w.log, SubConnected(k, sentOver, c));
    }
  }

  /** A change of one publisher session, with the event that says so. */
  lemma PubChange(pub: Role, log: seq<Event>, p: Sid, pub': Role, e: Event)
    requires PubOk(pub, log) && RoleOk(pub')
    requires (e.PubConnected? || e.PubDisconnected?) && e.session == p
    requires forall q: Sid :: q != p ==>
      (q in pub'.status <==> q in pub.status) && (q in pub.status ==> pub'.status[q] == pub.status[q])
    requires e.PubConnected? ==> p in pub'.status && pub'.status[p] == Connected(e.connection)
    requires e.PubDisconnected? ==> !IsConnected(pub', p)
    ensures PubOk(pub', log + [e])
  {
    forall q: Sid ensures PubConnectedOk(pub', log + [e], q) {
      PubSnoc(log, e, q);
      assert PubConnectedOk(pub, log, q);
    }
  }

  lemma PubEventKeepsRest(w: World, w': World, e: Event)
    requires SubOk(w.sub, w.log) && (e.PubConnected? || e.PubDisconnected?) && MessagesOk(w)
    requires w'.sub == w.sub && w'.log == w.log + [e] && w'.next == w.next && w'.confirms == w.confirms
    requires forall k :: k in w'.responses ==>
      k in w.responses && w'.responses[k] == w.responses[k] && !(e.PubConnected? && e.attempt == k)
    ensures SubOk(w'.sub, w'.log) && MessagesOk(w')
  {
    SubSnoc(w.log, e);
    Snoc(w.log, e);
  }

  lemma ConfirmedKeepsInv(w: World, k: Attempt)
    requires Inv(w) && k in w.responses
    ensures Inv(DoConfirmed(w, k))
  {
    var m := w.responses[k];
    var w' := DoConfirmed(w, k);
    if m.session in w.pub.status && w.pub.status[m.session].Idle? {
      var e := PubConnected(k, m.session, m.connection);
      assert PubConnectedOk(w.pub, w.log, m.session);
      PubChange(w.pub, w.log, m.session, w'.pub, e);
      Snoc(w.log, e);
      PubEventKeepsRest(w, w', e);
    }
  }

  lemma SubCloseKeepsInv(w: World, c: Conn)
    requires Inv(w)
    ensures Inv(DoSubClose(w, c))
  {
    if w.sub.current.Some? && Closes(w.sub, w.sub.current.value, c) {
      Snoc(w.log, SubDisconnected);
      SubSnoc(w.log, SubDisconnected);
      OtherEventKeepsPub(w.pub, w.log, SubDisconnected);
    }
  }

  lemma PubCloseKeepsInv(w: World, p: Sid, c: Conn)
    requires Inv(w)
    ensures Inv(DoPubClose(w, p, c))
  {
    if Closes(w.pub, p, c) {
      assert PubConnectedOk(w.pub, w.log, p);
      PubChange(w.pub, w.log, p, Close(w.pub, p, c), PubDisconnected(p));
      Snoc(w.log, PubDisconnected(p));
      PubEventKeepsRest(w, DoPubClose(w, p, c), PubDisconnected(p));
    }
  }

  lemma RemovePubKeepsInv(w: World, p: Sid)
    requires Inv(w)
    ensures Inv(DoRemovePub(w, p))
  {
    var pub' := Drop(w.pub, p);
    assert RoleOk(pub');
    if w.pub.current == Some(p) && IsConnected(w.pub, p) {
      assert PubConnectedOk(w.pub, w.log, p);
      PubChange(w.pub, w.log, p, pub', PubDisconnected(p));
      Snoc(w.log, PubDisconnected(p));
      PubEventKeepsRest(w, DoRemovePub(w, p), PubDisconnected(p));
    } else {
      forall q: Sid ensures PubConnectedOk(pub', w.log, q) {
        assert PubConnectedOk(w.pub, w.log, q);
      }
    }
  }

  lemma NextKeepsInv(w: World, s: Step)
    requires Inv(w) && Enabled(w, s)
    ensures Inv(Next(w, s))
  {
    match s
    case Start(id) => StartKeepsInv(w, id);
    case CreateSession(id) => CreateSessionKeepsInv(w, id);
    case ConnectionReady(p, c) => ConnectionReadyKeepsInv(w, p, c);
    case ConnectionFailed(_) =>
    case ConfirmCreateSession(k, c) => ConfirmKeepsInv(w, k, c);
    case Confirmed(k) => ConfirmedKeepsInv(w, k);
    case Lost(_) =>
    case SubClose(c) => SubCloseKeepsInv(w, c);
    case PubClose(p, c) => PubCloseKeepsInv(w, p, c);
    case RemoveSub(_) =>
    case RemovePub(p) => RemovePubKeepsInv(w, p);
  }
}
