/** What each step of the handshake does in every reachable state, and that it connects both ends. */
module HandshakeSteps {
  import opened Samples
  import opened Handshake
  import SendBarrier

  lemma RunSnoc(ss: seq<Step>, s: Step)
    ensures Possible(ss + [s]) <==> Possible(ss) && Enabled(After(ss), s)
    ensures Possible(ss + [s]) ==> After(ss + [s]) == Next(After(ss), s)
  {
    assert (ss + [s])[..|ss|] == ss;
  }

  // ----- the sessions of one node -----

  predicate IsIdle(r: Role, id: Sid) {
    id in r.status && r.status[id] == Idle
  }

  predicate IsOver(r: Role, id: Sid, c: Conn) {
    id in r.status && r.status[id] == Connected(c)
  }

  /** The node has a registered session with its peer, and it is connected. */
  predicate HasConnected(r: Role) {
    r.current.Some? && r.current.value in r.status && r.status[r.current.value].Connected?
  }

  ghost predicate OthersKept(r: Role, r': Role, id: Sid) {
    forall x :: x != id ==> (x in r'.status <==> x in r.status) && (x in r.status ==> r'.status[x] == r.status[x])
  }

  /** Session `id` has status `s` now, and nothing else changed. */
  ghost predicate OnlyStatus(r: Role, r': Role, id: Sid, s: Status) {
    && r'.current == r.current
    && id in r'.status && r'.status[id] == s
    && OthersKept(r, r', id)
  }

  /** There is a registered session: the one there was, or else the new one, not connected. */
  ghost predicate IsRegistered(r: Role, r': Role, id: Sid) {
    if r.current.Some? then r' == r
    else
      && r'.current == Some(id) && id in r'.status && r'.status[id] == Idle
      && OthersKept(r, r', id)
  }

  /** The session is no longer registered, and destroyed, if it was the registered one. */
  ghost predicate IsRemoved(r: Role, r': Role, id: Sid) {
    if r.current != Some(id) then r' == r
    else
      && r'.current == None && id in r'.status && r'.status[id] == Destroyed
      && OthersKept(r, r', id)
  }

  lemma DropRemoves(r: Role, id: Sid)
    ensures IsRemoved(r, Drop(r, id), id)
  {
  }

  /** A connection is closed: it concerns a session that is connected over it, or over whatever when none is named. */
  predicate Concerns(r: Role, id: Sid, c: Conn) {
    id in r.status && r.status[id].Connected? && (c == None || r.status[id].connection == c)
  }

  lemma ConnectSets(r: Role, id: Sid, c: Conn)
    requires IsIdle(r, id)
    ensures OnlyStatus(r, Connect(r, id, c), id, Connected(c))
  {
  }

  lemma CloseMeans(r: Role, id: Sid, c: Conn)
    ensures Concerns(r, id, c) <==> Closes(r, id, c)
    ensures if Concerns(r, id, c) then OnlyStatus(r, Close(r, id, c), id, Idle) else Close(r, id, c) == r
  {
  }

  // ----- each step -----

  /** A subscriber registers a session and asks for a publisher session unless it has one that is connected. */
  lemma SubscriberAsks(ss: seq<Step>, id: Sid)
    requires Possible(ss + [Start(id)])
    ensures Possible(ss)
    ensures
      var w, w' := After(ss), After(ss + [Start(id)]);
      && IsRegistered(w.sub, w'.sub, id)
      && w'.creates == w.creates + (if HasConnected(w.sub) then 0 else 1)
      && w' == w.(sub := w'.sub, creates := w'.creates)
  {
    RunSnoc(ss, Start(id));
  }

  /** The publisher registers a session for a request, and waits for a connection. */
  lemma RequestArrives(ss: seq<Step>, id: Sid)
    requires Possible(ss + [CreateSession(id)])
    ensures Possible(ss)
    ensures
      var w, w' := After(ss), After(ss + [CreateSession(id)]);
      && IsRegistered(w.pub, w'.pub, id) && w'.pub.current.Some?
      && w'.creates == w.creates - 1 && w'.opening == w.opening + multiset{w'.pub.current.value}
      && w' == w.(pub := w'.pub, creates := w'.creates, opening := w'.opening)
  {
    RunSnoc(ss, CreateSession(id));
  }

  /** Once the connection is known, a confirmation is sent over it if and only if the publisher session is not connected
      by then. */
  lemma ConnectionIsReady(ss: seq<Step>, p: Sid, c: Conn)
    requires Possible(ss + [ConnectionReady(p, c)])
    ensures Possible(ss)
    ensures
      var w, w' := After(ss), After(ss + [ConnectionReady(p, c)]);
      && (if p in w.pub.status && w.pub.status[p].Connected? then w'.confirms == w.confirms && w'.next == w.next
          else w'.confirms == w.confirms[w.next := Confirm(p, c)] && w'.next == w.next + 1)
      && w' == w.(opening := w.opening - multiset{p}, confirms := w'.confirms, next := w'.next)
  {
    RunSnoc(ss, ConnectionReady(p, c));
  }

  /** A registered session that is not connected can be connected: it is not destroyed. */
  lemma SubIsIdle(ss: seq<Step>)
    requires Possible(ss)
    ensures var r := After(ss).sub; r.current.Some? && !HasConnected(r) ==> IsIdle(r, r.current.value)
    ensures var r := After(ss).pub; r.current.Some? && !HasConnected(r) ==> IsIdle(r, r.current.value)
  {
    SendBarrier.EveryRunKeepsInv(ss);
    var w := After(ss);
    assert RoleOk(w.sub) && RoleOk(w.pub);
  }

  /** A confirmation is accepted if and only if the subscriber has a registered session that is not connected: the
      session is connected over the connection the confirmation arrived on, and the response is on its way. */
  lemma ConfirmationArrives(ss: seq<Step>, k: Attempt, c: Conn)
    requires Possible(ss + [ConfirmCreateSession(k, c)])
    ensures Possible(ss) && k in After(ss).confirms
    ensures
      var w, w' := After(ss), After(ss + [ConfirmCreateSession(k, c)]);
      && w'.confirms == w.confirms - {k}
      && (if w.sub.current.Some? && !HasConnected(w.sub) then
            && OnlyStatus(w.sub, w'.sub, w.sub.current.value, Connected(c))
            && w'.responses == w.responses[k := w.confirms[k]]
            && w'.log == w.log + [SubConnected(k, w.confirms[k].connection, c)]
          else w'.sub == w.sub && w'.responses == w.responses && w'.log == w.log)
      && w' == w.(sub := w'.sub, confirms := w'.confirms, responses := w'.responses, log := w'.log)
  {
    RunSnoc(ss, ConfirmCreateSession(k, c));
    SubIsIdle(ss);
    var w := After(ss);
    if w.sub.current.Some? && !HasConnected(w.sub) {
      ConnectSets(w.sub, w.sub.current.value, c);
    }
  }

  /** The confirmation of attempt `k` was sent for session `p` over `c`. */
  predicate SentAt(ss: seq<Step>, i: nat, k: Attempt, p: Sid, c: Conn)
    requires Possible(ss)
  {
    && i < |ss| && ss[i] == ConnectionReady(p, c)
    && Possible(ss[..i]) && After(ss[..i]).next == k
  }

  /** A confirmation or its response is on its way. */
  predicate InFlight(w: World, k: Attempt, m: Confirm) {
    (k in w.confirms && w.confirms[k] == m) || (k in w.responses && w.responses[k] == m)
  }

  lemma StepSendsMessage(w: World, s: Step, k: Attempt, m: Confirm)
    requires Enabled(w, s) && InFlight(Next(w, s), k, m)
    ensures InFlight(w, k, m) || (s == ConnectionReady(m.session, m.connection) && w.next == k)
  {
  }

  /** Every message on its way stems from a confirmation sent for its session over its connection. */
  lemma {:induction false} MessageHasSender(ss: seq<Step>, k: Attempt, m: Confirm) returns (i: nat)
    requires Possible(ss) && InFlight(After(ss), k, m)
    ensures SentAt(ss, i, k, m.session, m.connection)
  {
    var init, s := ss[..|ss| - 1], ss[|ss| - 1];
    if InFlight(After(init), k, m) {
      i := MessageHasSender(init, k, m);
      assert init[i] == ss[i] && init[..i] == ss[..i];
    } else {
      StepSendsMessage(After(init), s, k, m);
      i := |ss| - 1;
    }
  }

  /** When the response of an attempt arrives, the publisher session the confirmation was sent for is connected, over
      the connection it was sent over, if and only if it was idle. */
  lemma ResponseArrives(ss: seq<Step>, k: Attempt) returns (i: nat, p: Sid, c: Conn)
    requires Possible(ss + [Confirmed(k)])
    ensures Possible(ss) && SentAt(ss, i, k, p, c)
    ensures
      var w, w' := After(ss), After(ss + [Confirmed(k)]);
      && w'.responses == w.responses - {k}
      && (if IsIdle(w.pub, p) then
            OnlyStatus(w.pub, w'.pub, p, Connected(c)) && w'.log == w.log + [PubConnected(k, p, c)]
          else w'.pub == w.pub && w'.log == w.log)
      && w' == w.(pub := w'.pub, responses := w'.responses, log := w'.log)
  {
    RunSnoc(ss, Confirmed(k));
    p, c := After(ss).responses[k].session, After(ss).responses[k].connection;
    i := MessageHasSender(ss, k, Confirm(p, c));
  }

  /** The subscriber's session is disconnected if and only if the close concerns it. */
  lemma SubscriberCloses(ss: seq<Step>, c: Conn)
    requires Possible(ss + [SubClose(c)])
    ensures Possible(ss)
    ensures
      var w, w' := After(ss), After(ss + [SubClose(c)]);
      && (if w.sub.current.Some? && Concerns(w.sub, w.sub.current.value, c) then
            OnlyStatus(w.sub, w'.sub, w.sub.current.value, Idle) && w'.log == w.log + [SubDisconnected]
          else w'.sub == w.sub && w'.log == w.log)
      && w' == w.(sub := w'.sub, log := w'.log)
  {
    RunSnoc(ss, SubClose(c));
    var w := After(ss);
    if w.sub.current.Some? {
      CloseMeans(w.sub, w.sub.current.value, c);
    }
  }

  /** A publisher session is disconnected if and only if the close concerns it. */
  lemma PublisherCloses(ss: seq<Step>, p: Sid, c: Conn)
    requires Possible(ss + [PubClose(p, c)])
    ensures Possible(ss)
    ensures
      var w, w' := After(ss), After(ss + [PubClose(p, c)]);
      && (if Concerns(w.pub, p, c) then
            OnlyStatus(w.pub, w'.pub, p, Idle) && w'.log == w.log + [PubDisconnected(p)]
          else w'.pub == w.pub && w'.log == w.log)
      && w' == w.(pub := w'.pub, log := w'.log)
  {
    RunSnoc(ss, PubClose(p, c));
    CloseMeans(After(ss).pub, p, c);
  }

  /** Removing a publisher session unregisters and destroys it, if it is the registered one, and so disconnects it. */
  lemma PublisherIsRemoved(ss: seq<Step>, id: Sid)
    requires Possible(ss)
    ensures Possible(ss + [RemovePub(id)])
    ensures
      var w, w' := After(ss), After(ss + [RemovePub(id)]);
      && IsRemoved(w.pub, w'.pub, id)
      && w'.log == (if w.pub.current == Some(id) && HasConnected(w.pub) then w.log + [PubDisconnected(id)] else w.log)
      && w' == w.(pub := w'.pub, log := w'.log)
  {
    RunSnoc(ss, RemovePub(id));
    DropRemoves(After(ss).pub, id);
    assert After(ss + [RemovePub(id)]) == DoRemovePub(After(ss), id);
  }

  /** A subscriber session is removed in the same way, but never while it is connected. */
  lemma SubscriberIsRemoved(ss: seq<Step>, id: Sid)
    requires Possible(ss)
    ensures Possible(ss + [RemoveSub(id)]) <==> !(id in After(ss).sub.status && After(ss).sub.status[id].Connected?)
    ensures Possible(ss + [RemoveSub(id)]) ==>
      var w, w' := After(ss), After(ss + [RemoveSub(id)]);
      IsRemoved(w.sub, w'.sub, id) && w' == w.(sub := w'.sub)
  {
    RunSnoc(ss, RemoveSub(id));
    DropRemoves(After(ss).sub, id);
  }

  /** A failed connection leaves nothing but one request less, and a lost message is the only thing that is gone. */
  lemma NothingComesOfIt(ss: seq<Step>, s: Step)
    requires Possible(ss + [s]) && (s.ConnectionFailed? || s.Lost?)
    ensures Possible(ss)
    ensures
      var w, w' := After(ss), After(ss + [s]);
      if s.ConnectionFailed? then w' == w.(opening := w.opening - multiset{s.session})
      else w' == w.(confirms := w.confirms - {s.attempt}, responses := w.responses - {s.attempt})
  {
    RunSnoc(ss, s);
  }

  // ----- from the request to the connection -----

  /** The session a node will use for a request: the registered one, or the new one. */
  function Chosen(r: Role, id: Sid): Sid {
    if r.current.Some? then r.current.value else id
  }

  /** A request made after any run at a subscriber that is not connected reaches the publisher. */
  lemma RequestIsMade(ss: seq<Step>, a: Sid, b: Sid)
    requires Possible(ss) && !HasConnected(After(ss).sub) && !HasConnected(After(ss).pub)
    requires a !in After(ss).sub.status && b !in After(ss).pub.status
    ensures Possible(ss + [Start(a)] + [CreateSession(b)])
    ensures
      var w, w' := After(ss), After(ss + [Start(a)] + [CreateSession(b)]);
      && w'.sub.current == Some(Chosen(w.sub, a)) && IsIdle(w'.sub, Chosen(w.sub, a))
      && w'.pub.current == Some(Chosen(w.pub, b)) && IsIdle(w'.pub, Chosen(w.pub, b))
      && Chosen(w.pub, b) in w'.opening && w'.next == w.next
  {
    RunSnoc(ss, Start(a));
    SubIsIdle(ss);
    RunSnoc(ss + [Start(a)], CreateSession(b));
  }

  lemma ReadyConfirms(w: World, b: Sid, c: Conn)
    requires IsIdle(w.pub, b)
    ensures var w' := DoConnectionReady(w, b, c);
      && w.next in w'.confirms && w'.confirms[w.next] == Confirm(b, c)
      && w'.sub == w.sub && w'.pub == w.pub && w'.log == w.log
  {
  }

  lemma ConfirmAccepts(w: World, k: Attempt, a: Sid, d: Conn)
    requires k in w.confirms && w.sub.current == Some(a) && IsIdle(w.sub, a)
    ensures var w' := DoConfirm(w, k, d);
      && k in w'.responses && w'.responses[k] == w.confirms[k] && w'.pub == w.pub
      && w'.sub.current == Some(a) && IsOver(w'.sub, a, d)
      && w'.log == w.log + [SubConnected(k, w.confirms[k].connection, d)]
  {
  }

  lemma ResponseConnects(w: World, k: Attempt, b: Sid, c: Conn)
    requires k in w.responses && w.responses[k] == Confirm(b, c) && IsIdle(w.pub, b)
    ensures var w' := DoConfirmed(w, k);
      w'.sub == w.sub && IsOver(w'.pub, b, c) && w'.log == w.log + [PubConnected(k, b, c)]
  {
  }

  /** The attempt that follows connects both ends, each over its own connection. */
  lemma AttemptConnects(ss: seq<Step>, a: Sid, b: Sid, c: Conn, d: Conn)
    requires Possible(ss) && b in After(ss).opening
    requires After(ss).sub.current == Some(a) && IsIdle(After(ss).sub, a) && IsIdle(After(ss).pub, b)
    ensures
      var k := After(ss).next;
      var all := ss + [ConnectionReady(b, c)] + [ConfirmCreateSession(k, d)] + [Confirmed(k)];
      && Possible(all) && After(all).sub.current == Some(a)
      && IsOver(After(all).sub, a, d) && IsOver(After(all).pub, b, c)
      && After(all).log == After(ss).log + [SubConnected(k, c, d)] + [PubConnected(k, b, c)]
  {
    var k := After(ss).next;
    var s1 := ss + [ConnectionReady(b, c)];
    var s2 := s1 + [ConfirmCreateSession(k, d)];
    RunSnoc(ss, ConnectionReady(b, c));
    ReadyConfirms(After(ss), b, c);
    RunSnoc(s1, ConfirmCreateSession(k, d));
    ConfirmAccepts(After(s1), k, a, d);
    RunSnoc(s2, Confirmed(k));
    ResponseConnects(After(s2), k, b, c);
  }

  /** After any run that leaves both ends unconnected, a request, its confirmation and the response connect both ends by
      the same attempt: the publisher over the connection the confirmation was sent over, the subscriber over the one
      it arrived on. */
  lemma HandshakeConnects(ss: seq<Step>, a: Sid, b: Sid, c: Conn, d: Conn)
    requires Possible(ss) && !HasConnected(After(ss).sub) && !HasConnected(After(ss).pub)
    requires a !in After(ss).sub.status && b !in After(ss).pub.status
    ensures
      var w := After(ss);
      var p, k := Chosen(w.pub, b), w.next;
      var all := ss + [Start(a)] + [CreateSession(b)] +
        [ConnectionReady(p, c)] + [ConfirmCreateSession(k, d)] + [Confirmed(k)];
      && Possible(all)
      && IsOver(After(all).sub, Chosen(w.sub, a), d) && IsOver(After(all).pub, p, c)
      && SubAfter(After(all).log) == Some((k, d)) && PubAfter(After(all).log, p) == Some(c)
  {
    var w, asked := After(ss), ss + [Start(a)] + [CreateSession(b)];
    var p := Chosen(w.pub, b);
    RequestIsMade(ss, a, b);
    AttemptConnects(asked, Chosen(w.sub, a), p, c, d);
    var log := After(asked).log + [SubConnected(w.next, c, d)];
    SubSnoc(After(asked).log, SubConnected(w.next, c, d));
    SubSnoc(log, PubConnected(w.next, p, c));
    PubSnoc(log, PubConnected(w.next, p, c), p);
  }
}
