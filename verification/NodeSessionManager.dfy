/** NodeSessionManager: the relay's operations, updating its tables in place. */
module NodeSessionManager {
  import opened Samples
  import opened Relay
  import opened RelayRuns

  lemma Restarted(sent: map<Link, set<Message>>, l: Link, base: set<Message>, known: set<Message>)
    ensures sent[l := base][l := base + known] == sent[l := base + known]
    ensures {} + known == known
  {
  }

  /** What a link has been sent when the sessions of `nodes` are still to be served. */
  ghost function SoFar(w: World, l: Link, ms: set<Message>, exclude: Option<Conn>, nodes: set<Node>): set<Message>
    requires l in w.sent
  {
    if l.Peer? && l.node !in nodes && LinkConnection(w, l) != exclude then w.sent[l] + ms else w.sent[l]
  }

  /** Serving the peers and then the outgoing link is what forwarding means. */
  lemma PeersThenUpstream(w: World, peers: map<Link, set<Message>>, ms: set<Message>, exclude: Option<Conn>)
    requires LinksOk(w) && peers.Keys == w.sent.Keys
    requires forall l :: l in peers ==> peers[l] == SoFar(w, l, ms, exclude, {})
    ensures w.connectedTo.Some? ==> Upstream in peers
    ensures Forward(w, ms, exclude).sent ==
      if w.connectedTo.Some? && w.connectedTo != exclude then peers[Upstream := peers[Upstream] + ms] else peers
  {
    assert LinkConnection(w, Upstream) == w.connectedTo;
    assert w.connectedTo.None? ==> Upstream !in peers;
  }

  class NodeSessionManager {
    const self: Node
    var sessions: map<Node, Session>
    var announcements: map<Node, Record>
    var connectedTo: Option<Conn>
    /** The connection an announcement is being processed for; nothing is forwarded over it. */
    var exclude: Option<Conn>
    /** What was sent over the forwarding links, and the close callbacks that have not run. */
    var sent: map<Link, set<Message>>
    var pending: multiset<Callback>
    ghost var sources: map<Node, set<Conn>>
    ghost var heard: set<Heard>

    ghost function State(): World
      reads this
    {
      World(sessions, announcements, connectedTo, sent, sources, heard, pending)
    }

    constructor (self: Node)
      ensures this.self == self && State() == INITIAL && exclude == None
    {
      this.self := self;
      sessions, announcements, connectedTo, exclude := map[], map[], None, None;
      sent, pending, sources, heard := map[], multiset{}, map[], {};
    }

    method HasConnection(c: Conn) returns (tracked: bool)
      ensures tracked == HasNodeSession(State(), c)
    {
      var nodes := sessions.Keys;
      while nodes != {}
        invariant nodes <= sessions.Keys
        invariant forall n :: n in sessions && n !in nodes ==> sessions[n].connection != c
      {
        var n :| n in nodes;
        if sessions[n].connection == c {
          return true;
        }
        nodes := nodes - {n};
      }
      return connectedTo == Some(c);
    }

    /** The part of forward that serves the node sessions. */
    method ForwardToPeers(ms: set<Message>)
      requires LinksOk(State())
      modifies `sent
      ensures sent.Keys == old(sent).Keys
      ensures forall l :: l in sent ==> sent[l] == SoFar(old(State()), l, ms, exclude, {})
    {
      ghost var w := State();
      var nodes := sessions.Keys;
      while nodes != {}
        invariant nodes <= sessions.Keys && sent.Keys == w.sent.Keys
        invariant forall l :: l in sent ==> sent[l] == SoFar(w, l, ms, exclude, nodes)
      {
        var n :| n in nodes;
        if Some(sessions[n].connection) != exclude && sessions[n].forwards {
          assert LinkConnection(w, Peer(n)).Some?;
          sent := sent[Peer(n) := sent[Peer(n)] + ms];
        }
        nodes := nodes - {n};
      }
    }

    /** forward. */
    method ForwardAll(ms: set<Message>)
      requires LinksOk(State())
      modifies `sent
      ensures State() == Forward(old(State()), ms, exclude)
    {
      ghost var w := State();
      ForwardToPeers(ms);
      PeersThenUpstream(w, sent, ms, exclude);
      if connectedTo.Some? && connectedTo != exclude {
        sent := sent[Upstream := sent[Upstream] + ms];
      }
    }

    /** recordAnnouncement. */
    method RecordAnnouncement(n: Node, ts: set<Topic>, c: Option<Conn>)
      modifies `announcements, `sources, `heard
      ensures State() == if c.Some? then Retain(old(State()), n, ts, c.value) else old(State())
    {
      if c.None? {
        return;
      }
      var tracked := HasConnection(c.value);
      if !tracked {
        return;
      }
      ghost var w := State();
      var topics := if n in announcements then announcements[n].topics else {};
      announcements := announcements[n := Record(c.value, topics + ts)];
      sources := sources[n := SourcesOf(w, n) + {c.value}];
      heard := heard + set t | t in ts :: Heard(n, t, c.value);
    }

    method AnnounceAll(ts: set<Topic>, n: Node, c: Option<Conn>)
      requires LinksOk(State()) && exclude == None
      modifies this
      ensures State() == Announce(old(State()), self, n, ts, c) && exclude == None
    {
      if c.Some? && n == self {
        return;
      }
      ghost var w := State();
      RecordAnnouncement(n, ts, c);
      assert forall l :: LinkConnection(State(), l) == LinkConnection(w, l);
      exclude := c;
      ForwardAll(set t | t in ts :: Message(n, t));
      exclude := None;
    }

    method AnnounceTopicReader(topic: string, n: Node, c: Option<Conn>)
      requires LinksOk(State()) && exclude == None
      modifies this
      ensures State() == Announce(old(State()), self, n, {TopicReader(topic)}, c) && exclude == None
    {
      AnnounceAll({TopicReader(topic)}, n, c);
    }

    method AnnounceTopicWriter(topic: string, n: Node, c: Option<Conn>)
      requires LinksOk(State()) && exclude == None
      modifies this
      ensures State() == Announce(old(State()), self, n, {TopicWriter(topic)}, c) && exclude == None
    {
      AnnounceAll({TopicWriter(topic)}, n, c);
    }

    method AnnounceTopics(readers: seq<string>, writers: seq<string>, n: Node, c: Option<Conn>)
      requires LinksOk(State()) && exclude == None
      modifies this
      ensures State() == Announce(old(State()), self, n,
        (set r | r in readers :: TopicReader(r)) + (set s | s in writers :: TopicWriter(s)), c)
      ensures exclude == None
    {
      AnnounceAll((set r | r in readers :: TopicReader(r)) + (set s | s in writers :: TopicWriter(s)), n, c);
    }

    /** announceKnownTopics: the recorded announcements, except those last updated from the link's own connection. */
    method AnnounceKnownTopics(l: Link, c: Conn)
      requires l in sent
      modifies `sent
      ensures sent == old(sent)[l := old(sent)[l] + Known(old(State()), c)]
    {
      ghost var w := State();
      ghost var told: set<Message> := {};
      assert w.sent[l] + {} == w.sent[l];
      var nodes := announcements.Keys;
      while nodes != {}
        invariant nodes <= announcements.Keys
        invariant sent == w.sent[l := w.sent[l] + told]
        invariant forall m :: m in told <==> m in Known(w, c) && m.node !in nodes
      {
        var n :| n in nodes;
        if announcements[n].connection != c {
          var ms := set t | t in announcements[n].topics :: Message(n, t);
          sent := sent[l := sent[l] + ms];
          assert w.sent[l] + told + ms == w.sent[l] + (told + ms);
          told := told + ms;
        }
        nodes := nodes - {n};
      }
      assert told == Known(w, c);
    }

    /** removeAnnouncements. */
    method RemoveAnnouncements(c: Conn)
      modifies `announcements, `sources, `heard
      ensures State() == Forget(old(State()), c)
    {
      ghost var w := State();
      var nodes := announcements.Keys;
      while nodes != {}
        invariant nodes <= w.announcements.Keys
        invariant forall n :: n in announcements <==>
          n in w.announcements && (n in nodes || w.announcements[n].connection != c)
        invariant forall n :: n in announcements ==> announcements[n] == w.announcements[n]
      {
        var n :| n in nodes;
        if announcements[n].connection == c {
          announcements := announcements - {n};
        }
        nodes := nodes - {n};
      }
      sources, heard := Forget(w, c).sources, Forget(w, c).heard;
    }

    /** The part of createOrGet that makes a session and replays the recorded announcements to it. */
    method NewSession(n: Node, c: Conn, forwards: bool)
      modifies `sessions, `pending, `sent
      ensures State() == OpenSession(old(State()), n, c, forwards)
    {
      sessions := sessions[n := Session(c, forwards)];
      pending := pending + multiset{Callback(c, n)};
      if forwards {
        StartLink(Peer(n), {}, c);
      }
    }

    /** A link comes up: it is sent `first`, then the recorded announcements. */
    method StartLink(l: Link, first: set<Message>, c: Conn)
      modifies `sent
      ensures sent == old(sent)[l := first + Known(old(State()), c)]
      ensures first == {} ==> sent == old(sent)[l := Known(old(State()), c)]
    {
      ghost var known := Known(State(), c);
      Restarted(sent, l, first, known);
      sent := sent[l := first];
      AnnounceKnownTopics(l, c);
    }

    /** The part of createOrGet that drops a session on another connection. */
    method ReplaceSession(n: Node)
      requires n in sessions
      modifies `sessions, `announcements, `sources, `heard, `sent
      ensures State() == DropSession(Forget(old(State()), old(sessions)[n].connection), n)
    {
      RemoveAnnouncements(sessions[n].connection);
      sessions := sessions - {n};
      sent := sent - {Peer(n)};
    }

    /** createOrGet. */
    method CreateSession(n: Node, c: Conn, forwards: bool) returns (s: Session)
      modifies this
      ensures State() == CreateOrGet(old(State()), n, c, forwards) && exclude == old(exclude)
      ensures n in sessions && sessions[n] == s && s.connection == c && (forwards ==> s.forwards)
    {
      if n in sessions && sessions[n].connection == c {
        if forwards && !sessions[n].forwards {
          sessions := sessions[n := Session(c, true)];
          StartLink(Peer(n), {}, c);
        }
      } else {
        if n in sessions {
          ReplaceSession(n);
        }
        NewSession(n, c, forwards);
      }
      s := sessions[n];
    }

    /** connected; `own` are the topics of this node. */
    method Connected(n: Node, lookup: Conn, own: set<Topic>)
      requires connectedTo.None?
      modifies this
      ensures State() == Connect(old(State()), self, n, lookup, own) && exclude == old(exclude)
      ensures connectedTo == Some(LinkTo(old(State()), n, lookup)) && Upstream in sent
      ensures forall m :: m in sent[Upstream] <==>
        (m.node == self && m.topic in own) || Elsewhere(old(State()), LinkTo(old(State()), n, lookup), m)
    {
      forall m ensures m in Connect(State(), self, n, lookup, own).sent[Upstream] <==>
        (m.node == self && m.topic in own) || Elsewhere(State(), LinkTo(State(), n, lookup), m)
      {
        ConnectSends(State(), self, n, lookup, own, m);
      }
      var c := if n in sessions then sessions[n].connection else lookup;
      connectedTo := Some(c);
      StartLink(Upstream, set t | t in own :: Message(self, t), c);
    }

    /** disconnected, for the connection the link was on. */
    method Disconnected(c: Conn)
      requires connectedTo == Some(c)
      modifies this
      ensures State() == Disconnect(old(State()), c) && exclude == old(exclude)
    {
      RemoveAnnouncements(c);
      connectedTo := None;
      sent := sent - {Upstream};
    }

    /** destroySession. */
    method CloseSession(c: Conn, n: Node)
      modifies this
      ensures State() == DestroySession(old(State()), c, n) && exclude == old(exclude)
    {
      RemoveAnnouncements(c);
      pending := pending - multiset{Callback(c, n)};
      if n in sessions && sessions[n].connection == c {
        sessions := sessions - {n};
        sent := sent - {Peer(n)};
      }
    }

    /** Any step of the relay keeps everything that holds over its runs. */
    method Perform(s: Step)
      requires Inv(State()) && Enabled(State(), s) && exclude == None
      modifies this
      ensures State() == Next(old(State()), self, s) && Inv(State()) && exclude == None
    {
      NextKeepsInv(State(), self, s);
      match s
      case AnnounceStep(n, ts, c) => AnnounceAll(ts, n, c);
      case CreateOrGetStep(n, c, forwards) => var _ := CreateSession(n, c, forwards);
      case ConnectStep(n, lookup, own) => Connected(n, lookup, own);
      case DisconnectStep(c) => Disconnected(c);
      case CloseStep(c, n) => CloseSession(c, n);
    }
  }
}
