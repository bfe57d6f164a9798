/** The node session manager as a relay: it records the topic announcements it receives, forwards them to its peers, and
    replays what it recorded to peers that come later. */
module Relay {
  import opened Samples

  type Node = nat
  type Conn = nat

  datatype Topic = TopicReader(name: string) | TopicWriter(name: string)

  datatype Message = Message(node: Node, topic: Topic)

  /** A node session; it forwards announcements when it has a lookup proxy. */
  datatype Session = Session(connection: Conn, forwards: bool)

  /** The connection a node's record was last updated from, and the topics accumulated so far. */
  datatype Record = Record(connection: Conn, topics: set<Topic>)

  /** Where announcements go: the peer of a node session, or the node this one connects to. */
  datatype Link = Peer(node: Node) | Upstream

  datatype Heard = Heard(node: Node, topic: Topic, connection: Conn)

  /** A close callback registered with the connection manager. */
  datatype Callback = Callback(connection: Conn, node: Node)

  /** The manager's state, with what happened around it: the announcements sent over each forwarding link since it came
      up, the connections each record was updated from, the connections each recorded topic was received on, and the
      close callbacks that have not run. */
  datatype World = World(
    sessions: map<Node, Session>,
    announcements: map<Node, Record>,
    connectedTo: Option<Conn>,
    sent: map<Link, set<Message>>,
    sources: map<Node, set<Conn>>,
    heard: set<Heard>,
    pending: multiset<Callback>)

  const INITIAL := World(map[], map[], None, map[], map[], {}, multiset{})

  /** The connection of a forwarding link, if the link is up. */
  function LinkConnection(w: World, l: Link): Option<Conn> {
    match l
    case Peer(n) => if n in w.sessions && w.sessions[n].forwards then Some(w.sessions[n].connection) else None
    case Upstream => w.connectedTo
  }

  predicate HasNodeSession(w: World, c: Conn) {
    (exists n :: n in w.sessions && w.sessions[n].connection == c) || w.connectedTo == Some(c)
  }

  // ----- operations -----

  function Messages(n: Node, ts: set<Topic>): set<Message> {
    set t | t in ts :: Message(n, t)
  }

  /** forward: to every forwarding link but those on the excluded connection. */
  function Forward(w: World, ms: set<Message>, exclude: Option<Conn>): World {
    w.(sent := map l | l in w.sent :: if LinkConnection(w, l) != exclude then w.sent[l] + ms else w.sent[l])
  }

  /** announceKnownTopics: what is replayed over a link on connection `c`. */
  function Known(w: World, c: Conn): set<Message> {
    set n, t | n in w.announcements && w.announcements[n].connection != c && t in w.announcements[n].topics ::
      Message(n, t)
  }

  function TopicsOf(w: World, n: Node): set<Topic> {
    if n in w.announcements then w.announcements[n].topics else {}
  }

  function SourcesOf(w: World, n: Node): set<Conn> {
    if n in w.sources then w.sources[n] else {}
  }

  /** recordAnnouncement: only announcements received over a tracked connection are kept. */
  function Retain(w: World, n: Node, ts: set<Topic>, c: Conn): World {
    if !HasNodeSession(w, c) then w
    else
      w.(announcements := w.announcements[n := Record(c, TopicsOf(w, n) + ts)],
         sources := w.sources[n := SourcesOf(w, n) + {c}],
         heard := w.heard + set t | t in ts :: Heard(n, t, c))
  }

  /** announceTopicReader, announceTopicWriter and announceTopics; local announcements have no connection. */
  function Announce(w: World, self: Node, n: Node, ts: set<Topic>, c: Option<Conn>): World {
    if c.Some? && n == self then w
    else Forward(if c.Some? then Retain(w, n, ts, c.value) else w, Messages(n, ts), c)
  }

  /** removeAnnouncements. */
  function Forget(w: World, c: Conn): World {
    w.(announcements := map n | n in w.announcements && w.announcements[n].connection != c :: w.announcements[n],
       sources := map n | n in w.sources && n in w.announcements && w.announcements[n].connection != c :: w.sources[n],
       heard := set h | h in w.heard && h.node in w.announcements && w.announcements[h.node].connection != c)
  }

  function DropSession(w: World, n: Node): World {
    w.(sessions := w.sessions - {n}, sent := w.sent - {Peer(n)})
  }

  function OpenSession(w: World, n: Node, c: Conn, forwards: bool): World {
    w.(sessions := w.sessions[n := Session(c, forwards)],
       sent := if forwards then w.sent[Peer(n) := Known(w, c)] else w.sent,
       pending := w.pending + multiset{Callback(c, n)})
  }

  function Upgrade(w: World, n: Node, c: Conn): World {
    w.(sessions := w.sessions[n := Session(c, true)], sent := w.sent[Peer(n) := Known(w, c)])
  }

  /** createOrGet. */
  function CreateOrGet(w: World, n: Node, c: Conn, forwards: bool): World {
    if n !in w.sessions then OpenSession(w, n, c, forwards)
    else if w.sessions[n].connection != c then
      OpenSession(DropSession(Forget(w, w.sessions[n].connection), n), n, c, forwards)
    else if forwards && !w.sessions[n].forwards then Upgrade(w, n, c)
    else w
  }

  /** connected: the link uses the connection of the node's session if there is one. This node's own topics go first. */
  function Connect(w: World, self: Node, n: Node, lookup: Conn, own: set<Topic>): World {
    var c := if n in w.sessions then w.sessions[n].connection else lookup;
    w.(connectedTo := Some(c), sent := w.sent[Upstream := Messages(self, own) + Known(w, c)])
  }

  /** disconnected. */
  function Disconnect(w: World, c: Conn): World {
    var w' := Forget(w, c);
    w'.(connectedTo := None, sent := w'.sent - {Upstream})
  }

  /** destroySession, the close callback of a node session. */
  function DestroySession(w: World, c: Conn, n: Node): World {
    var w1 := Forget(w, c).(pending := w.pending - multiset{Callback(c, n)});
    if n in w.sessions && w.sessions[n].connection == c then DropSession(w1, n) else w1
  }

  // ----- what holds in every reachable state -----

  ghost predicate LinksOk(w: World) {
    forall l :: l in w.sent <==> LinkConnection(w, l).Some?
  }

  ghost predicate SourcesOk(w: World) {
    && w.sources.Keys == w.announcements.Keys
    && (forall n :: n in w.announcements ==> w.announcements[n].connection in w.sources[n])
  }

  /** The connection of every retained announcement is tracked. */
  ghost predicate RecordsTracked(w: World) {
    forall n :: n in w.announcements ==> HasNodeSession(w, w.announcements[n].connection)
  }

  /** The link has been sent the announcement, or the node's record was at some point sourced from its connection. */
  ghost predicate Reached(w: World, l: Link, n: Node, t: Topic)
    requires l in w.sent
  {
    Message(n, t) in w.sent[l] || exists c :: LinkConnection(w, l) == Some(c) && c in SourcesOf(w, n)
  }

  ghost predicate Complete(w: World) {
    forall l, n, t :: l in w.sent && t in TopicsOf(w, n) ==> Reached(w, l, n, t)
  }

  ghost predicate CallbacksOk(w: World) {
    forall n :: n in w.sessions ==> Callback(w.sessions[n].connection, n) in w.pending
  }

  ghost predicate Inv(w: World) {
    LinksOk(w) && SourcesOk(w) && RecordsTracked(w) && Complete(w) && CallbacksOk(w)
  }

  lemma RetainKeeps(w: World, n: Node, ts: set<Topic>, c: Conn)
    requires Inv(w)
    ensures var w' := Retain(w, n, ts, c); LinksOk(w') && SourcesOk(w') && RecordsTracked(w') && CallbacksOk(w')
  {
    var w' := Retain(w, n, ts, c);
    forall l ensures LinkConnection(w', l) == LinkConnection(w, l) {
    }
    forall c' ensures HasNodeSession(w', c') <==> HasNodeSession(w, c') {
    }
  }

  lemma ForwardKeeps(w: World, ms: set<Message>, exclude: Option<Conn>)
    requires LinksOk(w) && SourcesOk(w) && RecordsTracked(w) && CallbacksOk(w)
    ensures var w' := Forward(w, ms, exclude); LinksOk(w') && SourcesOk(w') && RecordsTracked(w') && CallbacksOk(w')
  {
    var w' := Forward(w, ms, exclude);
    forall l ensures LinkConnection(w', l) == LinkConnection(w, l) {
    }
    forall c ensures HasNodeSession(w', c) <==> HasNodeSession(w, c) {
    }
  }

  /** An announcement reaches every link but those of its own connection, which then is a source of the record. */
  lemma AnnounceKeepsComplete(w: World, self: Node, n: Node, ts: set<Topic>, c: Option<Conn>)
    requires LinksOk(w) && Complete(w)
    ensures Complete(Announce(w, self, n, ts, c))
  {
    var w' := Announce(w, self, n, ts, c);
    forall l, m, t | l in w'.sent && t in TopicsOf(w', m) ensures Reached(w', l, m, t) {
      assert l in w.sent && LinkConnection(w', l) == LinkConnection(w, l) && w.sent[l] <= w'.sent[l];
      assert SourcesOf(w, m) <= SourcesOf(w', m);
      if t in TopicsOf(w, m) {
        assert Reached(w, l, m, t);
      } else {
        assert m == n && t in ts && c.Some? && HasNodeSession(w, c.value);
        assert LinkConnection(w, l) != c ==> Message(n, t) in w'.sent[l];
        assert c.value in SourcesOf(w', n);
      }
    }
  }

  lemma AnnounceKeepsInv(w: World, self: Node, n: Node, ts: set<Topic>, c: Option<Conn>)
    requires Inv(w)
    ensures Inv(Announce(w, self, n, ts, c))
  {
    AnnounceKeepsComplete(w, self, n, ts, c);
    if c.Some? && n != self {
      RetainKeeps(w, n, ts, c.value);
      ForwardKeeps(Retain(w, n, ts, c.value), Messages(n, ts), c);
    } else if c.None? {
      ForwardKeeps(w, Messages(n, ts), c);
    }
  }

  lemma ForgetKeeps(w: World, c: Conn)
    requires Inv(w)
    ensures Inv(Forget(w, c))
    ensures forall n :: n in Forget(w, c).announcements ==> w.announcements[n].connection != c
  {
    var w' := Forget(w, c);
    forall l ensures LinkConnection(w', l) == LinkConnection(w, l) {
    }
    forall c' ensures HasNodeSession(w', c') <==> HasNodeSession(w, c') {
    }
    forall l, n, t | l in w'.sent && t in TopicsOf(w', n) ensures Reached(w', l, n, t) {
      assert Reached(w, l, n, t);
      assert SourcesOf(w', n) == SourcesOf(w, n);
    }
  }

  /** Without records from its connection, a session can go. */
  lemma DropSessionKeeps(w: World, n: Node)
    requires Inv(w) && n in w.sessions
    requires forall m :: m in w.announcements ==> w.announcements[m].connection != w.sessions[n].connection
    ensures Inv(DropSession(w, n))
  {
    var w' := DropSession(w, n);
    forall l | l != Peer(n) ensures LinkConnection(w', l) == LinkConnection(w, l) {
    }
    forall m | m in w'.announcements ensures HasNodeSession(w', w'.announcements[m].connection) {
      var c := w.announcements[m].connection;
      if x :| x in w.sessions && w.sessions[x].connection == c {
        assert x in w'.sessions;
      }
    }
    forall l, m, t | l in w'.sent && t in TopicsOf(w', m) ensures Reached(w', l, m, t) {
      assert Reached(w, l, m, t);
    }
  }

  /** A replay reaches everything but the records last updated from the link's own connection. */
  lemma ReplayIsComplete(w: World, c: Conn, n: Node, t: Topic)
    requires SourcesOk(w) && t in TopicsOf(w, n)
    ensures Message(n, t) in Known(w, c) || c in SourcesOf(w, n)
  {
  }

  lemma StillTracked(w: World, w': World)
    requires RecordsTracked(w) && w'.announcements == w.announcements
    requires forall c :: HasNodeSession(w, c) ==> HasNodeSession(w', c)
    ensures RecordsTracked(w')
  {
  }

  /** A link that comes up with a replay, next to links that stay as they were. */
  lemma NewLinkKeepsComplete(w: World, w': World, l: Link, c: Conn)
    requires Complete(w) && SourcesOk(w) && LinkConnection(w', l) == Some(c)
    requires w'.announcements == w.announcements && w'.sources == w.sources
    requires l in w'.sent && Known(w, c) <= w'.sent[l] && w'.sent.Keys == w.sent.Keys + {l}
    requires forall k :: k in w.sent && k != l ==>
      w'.sent[k] == w.sent[k] && LinkConnection(w', k) == LinkConnection(w, k)
    ensures Complete(w')
  {
    forall k, n, t | k in w'.sent && t in TopicsOf(w', n) ensures Reached(w', k, n, t) {
      if k == l {
        ReplayIsComplete(w, c, n, t);
      } else {
        assert Reached(w, k, n, t);
      }
    }
  }

  lemma OpenSessionKeeps(w: World, n: Node, c: Conn, forwards: bool)
    requires Inv(w) && n !in w.sessions
    ensures Inv(OpenSession(w, n, c, forwards))
  {
    var w' := OpenSession(w, n, c, forwards);
    forall l | l != Peer(n) ensures LinkConnection(w', l) == LinkConnection(w, l) {
    }
    assert LinkConnection(w', Peer(n)) == if forwards then Some(c) else None;
    forall d | HasNodeSession(w, d) ensures HasNodeSession(w', d) {
      if x :| x in w.sessions && w.sessions[x].connection == d {
        assert x in w'.sessions && w'.sessions[x].connection == d;
      }
    }
    StillTracked(w, w');
    if forwards {
      NewLinkKeepsComplete(w, w', Peer(n), c);
    } else {
      forall l, m, t | l in w'.sent && t in TopicsOf(w', m) ensures Reached(w', l, m, t) {
        assert Reached(w, l, m, t);
      }
    }
  }

  lemma UpgradeKeeps(w: World, n: Node, c: Conn)
    requires Inv(w) && n in w.sessions && w.sessions[n] == Session(c, false)
    ensures Inv(Upgrade(w, n, c))
  {
    var w' := Upgrade(w, n, c);
    forall l | l != Peer(n) ensures LinkConnection(w', l) == LinkConnection(w, l) {
    }
    forall d | HasNodeSession(w, d) ensures HasNodeSession(w', d) {
      if x :| x in w.sessions && w.sessions[x].connection == d {
        assert x in w'.sessions && w'.sessions[x].connection == d;
      }
    }
    StillTracked(w, w');
    NewLinkKeepsComplete(w, w', Peer(n), c);
  }

  lemma CreateOrGetKeepsInv(w: World, n: Node, c: Conn, forwards: bool)
    requires Inv(w)
    ensures Inv(CreateOrGet(w, n, c, forwards))
  {
    if n !in w.sessions {
      OpenSessionKeeps(w, n, c, forwards);
    } else if w.sessions[n].connection != c {
      var w1 := Forget(w, w.sessions[n].connection);
      ForgetKeeps(w, w.sessions[n].connection);
      DropSessionKeeps(w1, n);
      OpenSessionKeeps(DropSession(w1, n), n, c, forwards);
    } else if forwards && !w.sessions[n].forwards {
      UpgradeKeeps(w, n, c);
    }
  }

  lemma ConnectKeepsInv(w: World, self: Node, n: Node, lookup: Conn, own: set<Topic>)
    requires Inv(w) && w.connectedTo.None?
    ensures Inv(Connect(w, self, n, lookup, own))
  {
    var w' := Connect(w, self, n, lookup, own);
    forall l | l != Upstream ensures LinkConnection(w', l) == LinkConnection(w, l) {
    }
    forall d | HasNodeSession(w, d) ensures HasNodeSession(w', d) {
    }
    StillTracked(w, w');
    NewLinkKeepsComplete(w, w', Upstream, w'.connectedTo.value);
  }

  lemma DisconnectKeepsInv(w: World, c: Conn)
    requires Inv(w) && w.connectedTo == Some(c)
    ensures Inv(Disconnect(w, c))
  {
    ForgetKeeps(w, c);
    var w1, w' := Forget(w, c), Disconnect(w, c);
    forall l | l != Upstream ensures LinkConnection(w', l) == LinkConnection(w1, l) {
    }
    forall n | n in w'.announcements ensures HasNodeSession(w', w'.announcements[n].connection) {
      assert HasNodeSession(w1, w1.announcements[n].connection);
    }
    forall l, n, t | l in w'.sent && t in TopicsOf(w', n) ensures Reached(w', l, n, t) {
      assert Reached(w1, l, n, t);
    }
  }

  lemma PendingKeeps(w: World, c: Conn, n: Node)
    requires Inv(w) && (n in w.sessions ==> w.sessions[n].connection != c)
    ensures Inv(w.(pending := w.pending - multiset{Callback(c, n)}))
  {
    var w' := w.(pending := w.pending - multiset{Callback(c, n)});
    forall l ensures LinkConnection(w', l) == LinkConnection(w, l) {
    }
    forall d ensures HasNodeSession(w', d) <==> HasNodeSession(w, d) {
    }
    forall l, m, t | l in w'.sent && t in TopicsOf(w', m) ensures Reached(w', l, m, t) {
      assert Reached(w, l, m, t);
    }
  }

  lemma DestroySessionKeepsInv(w: World, c: Conn, n: Node)
    requires Inv(w)
    ensures Inv(DestroySession(w, c, n))
  {
    ForgetKeeps(w, c);
    var w1 := Forget(w, c);
    if n in w.sessions && w.sessions[n].connection == c {
      DropSessionKeeps(w1, n);
      PendingKeeps(DropSession(w1, n), c, n);
    } else {
      PendingKeeps(w1, c, n);
    }
  }

  // ----- runs -----

  datatype Step =
    | AnnounceStep(node: Node, topics: set<Topic>, source: Option<Conn>)
    | CreateOrGetStep(node: Node, connection: Conn, forwards: bool)
    | ConnectStep(node: Node, lookup: Conn, own: set<Topic>)
    | DisconnectStep(connection: Conn)
    | CloseStep(connection: Conn, node: Node)

  /** The manager connects again only after a disconnection, and each close callback runs once. */
  predicate Enabled(w: World, s: Step) {
    match s
    case ConnectStep(_, _, _) => w.connectedTo.None?
    case DisconnectStep(c) => w.connectedTo == Some(c)
    case CloseStep(c, n) => Callback(c, n) in w.pending
    case _ => true
  }

  function Next(w: World, self: Node, s: Step): World {
    match s
    case AnnounceStep(n, ts, c) => Announce(w, self, n, ts, c)
    case CreateOrGetStep(n, c, forwards) => CreateOrGet(w, n, c, forwards)
    case ConnectStep(n, lookup, own) => Connect(w, self, n, lookup, own)
    case DisconnectStep(c) => Disconnect(w, c)
    case CloseStep(c, n) => DestroySession(w, c, n)
  }

  function After(self: Node, ss: seq<Step>): World {
    if ss == [] then INITIAL else Next(After(self, ss[..|ss| - 1]), self, ss[|ss| - 1])
  }

  predicate Possible(self: Node, ss: seq<Step>) {
    ss == [] || (Possible(self, ss[..|ss| - 1]) && Enabled(After(self, ss[..|ss| - 1]), ss[|ss| - 1]))
  }

  lemma NextKeepsInv(w: World, self: Node, s: Step)
    requires Inv(w) && Enabled(w, s)
    ensures Inv(Next(w, self, s))
  {
    match s
    case AnnounceStep(n, ts, c) => AnnounceKeepsInv(w, self, n, ts, c);
    case CreateOrGetStep(n, c, forwards) => CreateOrGetKeepsInv(w, n, c, forwards);
    case ConnectStep(n, lookup, own) => ConnectKeepsInv(w, self, n, lookup, own);
    case DisconnectStep(c) => DisconnectKeepsInv(w, c);
    case CloseStep(c, n) => DestroySessionKeepsInv(w, c, n);
  }

  lemma {:induction false} EveryRunKeepsInv(self: Node, ss: seq<Step>)
    requires Possible(self, ss)
    ensures Inv(After(self, ss))
  {
    if ss != [] {
      var init := ss[..|ss| - 1];
      EveryRunKeepsInv(self, init);
      NextKeepsInv(After(self, init), self, ss[|ss| - 1]);
    }
  }

  /** Completeness: whatever the order of announcements, session creations, upgrades, connections and closings, a
      forwarding link has been sent every recorded announcement, unless the node's record was at some point sourced from
      the link's own connection. */
  lemma EveryPeerIsToldEverything(self: Node, ss: seq<Step>, l: Link, c: Conn, n: Node, t: Topic)
    requires Possible(self, ss)
    ensures
      var w := After(self, ss);
      LinkConnection(w, l) == Some(c) && t in TopicsOf(w, n) ==>
        l in w.sent && (Message(n, t) in w.sent[l] || c in SourcesOf(w, n))
  {
    EveryRunKeepsInv(self, ss);
    var w := After(self, ss);
    if LinkConnection(w, l) == Some(c) && t in TopicsOf(w, n) {
      assert Reached(w, l, n, t);
    }
  }

  /** Hygiene: every retained announcement comes from a tracked connection, and once the close callbacks of a connection
      have run and the outgoing link is not on it, neither a session nor an announcement of it is left. */
  lemma NothingOutlivesItsConnection(self: Node, ss: seq<Step>, c: Conn)
    requires Possible(self, ss)
    ensures
      var w := After(self, ss);
      forall n :: n in w.announcements ==> HasNodeSession(w, w.announcements[n].connection)
    ensures
      var w := After(self, ss);
      (forall n :: Callback(c, n) !in w.pending) && w.connectedTo != Some(c) ==>
        && (forall n :: n in w.sessions ==> w.sessions[n].connection != c)
        && (forall n :: n in w.announcements ==> w.announcements[n].connection != c)
  {
    EveryRunKeepsInv(self, ss);
    var w := After(self, ss);
    if (forall n :: Callback(c, n) !in w.pending) && w.connectedTo != Some(c) {
      assert !HasNodeSession(w, c);
    }
  }

  /** The session is still on its connection, still forwards if it did, and what it was sent is kept. */
  ghost predicate SessionKept(w: World, w': World, n: Node)
    requires n in w.sessions
  {
    && n in w'.sessions && w'.sessions[n].connection == w.sessions[n].connection
    && (w.sessions[n].forwards ==> w'.sessions[n].forwards)
    && (Peer(n) in w.sent ==> Peer(n) in w'.sent && w.sent[Peer(n)] <= w'.sent[Peer(n)])
  }

  lemma AnnounceSpares(w: World, self: Node, m: Node, ts: set<Topic>, c: Option<Conn>, n: Node)
    requires n in w.sessions
    ensures SessionKept(w, Announce(w, self, m, ts, c), n)
  {
  }

  lemma CreateOrGetSpares(w: World, m: Node, c: Conn, forwards: bool, n: Node)
    requires LinksOk(w) && n in w.sessions && (m == n ==> c == w.sessions[n].connection)
    ensures SessionKept(w, CreateOrGet(w, m, c, forwards), n)
  {
    assert Peer(n) in w.sent <==> LinkConnection(w, Peer(n)).Some?;
    if m == n {
      assert CreateOrGet(w, m, c, forwards) == if forwards && !w.sessions[n].forwards then Upgrade(w, n, c) else w;
    }
  }

  /** What ends a session of `n` on `c`: the close of that connection, or its node coming back over another one. */
  predicate Ends(s: Step, n: Node, c: Conn) {
    s == CloseStep(c, n) || (s.CreateOrGetStep? && s.node == n && s.connection != c)
  }

  lemma StepSpares(w: World, self: Node, s: Step, n: Node)
    requires LinksOk(w) && n in w.sessions && !Ends(s, n, w.sessions[n].connection)
    ensures SessionKept(w, Next(w, self, s), n)
  {
    match s
    case AnnounceStep(m, ts, c) => AnnounceSpares(w, self, m, ts, c, n);
    case CreateOrGetStep(m, c, forwards) => CreateOrGetSpares(w, m, c, forwards, n);
    case ConnectStep(_, _, _) =>
    case DisconnectStep(_) =>
    case CloseStep(_, _) =>
  }

  lemma StepEnds(w: World, self: Node, s: Step, n: Node)
    requires n in w.sessions && Ends(s, n, w.sessions[n].connection)
    ensures var w' := Next(w, self, s); n in w'.sessions ==> w'.sessions[n].connection != w.sessions[n].connection
  {
  }

  predicate SessionOn(w: World, n: Node, c: Conn) {
    n in w.sessions && w.sessions[n].connection == c
  }

  /** The session `n` has on `c` after the first `from` steps is kept by each of the others. */
  ghost predicate Lasts(self: Node, ss: seq<Step>, from: nat, n: Node, c: Conn)
    requires from <= |ss|
  {
    && SessionOn(After(self, ss), n, c)
    && (from < |ss| ==>
      && Lasts(self, ss[..|ss| - 1], from, n, c)
      && SessionKept(After(self, ss[..|ss| - 1]), After(self, ss), n))
  }

  /** What the step after a run does to a session. */
  lemma StepKeepsIff(self: Node, ss: seq<Step>, n: Node, c: Conn)
    requires ss != [] && Possible(self, ss) && SessionOn(After(self, ss[..|ss| - 1]), n, c)
    ensures SessionOn(After(self, ss), n, c) && SessionKept(After(self, ss[..|ss| - 1]), After(self, ss), n)
      <==> !Ends(ss[|ss| - 1], n, c)
  {
    var init, s := ss[..|ss| - 1], ss[|ss| - 1];
    EveryRunKeepsInv(self, init);
    if Ends(s, n, c) {
      StepEnds(After(self, init), self, s, n);
    } else {
      StepSpares(After(self, init), self, s, n);
    }
  }

  ghost predicate NotEnded(ss: seq<Step>, from: nat, n: Node, c: Conn) {
    forall i :: from <= i < |ss| ==> !Ends(ss[i], n, c)
  }

  lemma NotEndedFront(ss: seq<Step>, from: nat, n: Node, c: Conn)
    requires from < |ss|
    ensures NotEnded(ss, from, n, c) <==> NotEnded(ss[..|ss| - 1], from, n, c) && !Ends(ss[|ss| - 1], n, c)
  {
    var init := ss[..|ss| - 1];
    assert forall i :: from <= i < |init| ==> init[i] == ss[i];
  }

  lemma {:induction false} LastsUnlessEnded(self: Node, ss: seq<Step>, from: nat, n: Node, c: Conn)
    requires Possible(self, ss) && from <= |ss| && SessionOn(After(self, ss[..from]), n, c)
    requires NotEnded(ss, from, n, c)
    ensures Lasts(self, ss, from, n, c)
  {
    if from == |ss| {
      assert ss[..from] == ss;
    } else {
      var init := ss[..|ss| - 1];
      assert init[..from] == ss[..from];
      NotEndedFront(ss, from, n, c);
      LastsUnlessEnded(self, init, from, n, c);
      StepKeepsIff(self, ss, n, c);
    }
  }

  lemma {:induction false} LastingIsNotEnded(self: Node, ss: seq<Step>, from: nat, n: Node, c: Conn)
    requires Possible(self, ss) && from <= |ss| && Lasts(self, ss, from, n, c)
    ensures NotEnded(ss, from, n, c)
  {
    if from < |ss| {
      LastingIsNotEnded(self, ss[..|ss| - 1], from, n, c);
      StepKeepsIff(self, ss, n, c);
      NotEndedFront(ss, from, n, c);
    }
  }

  /** A session made on a connection lasts through every run of steps in which that connection is not closed and its
      node does not come back over another one, and through no other run. In particular the close callback of a
      superseded connection spares the session that replaced it. */
  lemma OnlyItsOwnCloseEndsASession(self: Node, ss: seq<Step>, from: nat, n: Node, c: Conn)
    requires Possible(self, ss) && from <= |ss| && SessionOn(After(self, ss[..from]), n, c)
    ensures Lasts(self, ss, from, n, c) <==> NotEnded(ss, from, n, c)
  {
    if NotEnded(ss, from, n, c) {
      LastsUnlessEnded(self, ss, from, n, c);
    } else if Lasts(self, ss, from, n, c) {
      LastingIsNotEnded(self, ss, from, n, c);
    }
  }

  /** What the peer of a session that lasts was sent is kept, and the session goes on forwarding. */
  lemma {:induction false} LastingSessionKeepsItsLink(self: Node, ss: seq<Step>, from: nat, n: Node, c: Conn)
    requires from <= |ss| && Lasts(self, ss, from, n, c)
    ensures SessionOn(After(self, ss[..from]), n, c) && SessionKept(After(self, ss[..from]), After(self, ss), n)
  {
    if from == |ss| {
      assert ss[..from] == ss;
    } else {
      assert ss[..|ss| - 1][..from] == ss[..from];
      LastingSessionKeepsItsLink(self, ss[..|ss| - 1], from, n, c);
    }
  }

  /** An announcement is never sent back over the connection it came from; every other forwarding link gets it. */
  lemma ForwardedButNotEchoed(w: World, self: Node, n: Node, ts: set<Topic>, c: Option<Conn>, l: Link)
    requires LinksOk(w) && l in w.sent && (c.Some? ==> n != self)
    ensures l in Announce(w, self, n, ts, c).sent
    ensures Announce(w, self, n, ts, c).sent[l] ==
      if LinkConnection(w, l) == c then w.sent[l] else w.sent[l] + Messages(n, ts)
    ensures c.None? ==> Messages(n, ts) <= Announce(w, self, n, ts, c).sent[l]
  {
    assert LinkConnection(w, l).Some?;
  }

  lemma StepNeverRecordsItself(w: World, self: Node, s: Step)
    requires self !in w.announcements
    ensures self !in Next(w, self, s).announcements
  {
    match s
    case AnnounceStep(n, ts, c) =>
    case CreateOrGetStep(n, c, forwards) =>
      assert Next(w, self, s).announcements.Keys <= w.announcements.Keys;
    case ConnectStep(_, _, _) =>
    case DisconnectStep(_) =>
    case CloseStep(_, _) =>
  }

  /** A node never records announcements of itself that come back to it. */
  lemma {:induction false} NeverRecordsItself(self: Node, ss: seq<Step>)
    ensures self !in After(self, ss).announcements
  {
    if ss != [] {
      var init := ss[..|ss| - 1];
      NeverRecordsItself(self, init);
      StepNeverRecordsItself(After(self, init), self, ss[|ss| - 1]);
    }
  }

  // ----- topic by topic -----

  /** The link has been sent every recorded announcement it did not deliver itself. */
  ghost predicate ToldEveryTopic(w: World, l: Link, c: Conn)
    requires l in w.sent
  {
    forall n, t :: t in TopicsOf(w, n) ==> Message(n, t) in w.sent[l] || Heard(n, t, c) in w.heard
  }

  /** Every topic of a record last updated from `c` was received over `c`. */
  ghost predicate OwnRecordsAreOwn(w: World, c: Conn) {
    forall n, t :: n in w.announcements && w.announcements[n].connection == c && t in w.announcements[n].topics ==>
      Heard(n, t, c) in w.heard
  }

  /** The replay to a peer is complete topic by topic exactly when no record last updated from its connection holds a
      topic that came from elsewhere: announceKnownTopics skips whole records. */
  lemma ReplayTellsEveryTopicIff(w: World, n: Node, c: Conn)
    requires Inv(w) && (n in w.sessions && w.sessions[n].connection == c ==> !w.sessions[n].forwards)
    ensures Peer(n) in CreateOrGet(w, n, c, true).sent
    ensures ToldEveryTopic(CreateOrGet(w, n, c, true), Peer(n), c) <==> OwnRecordsAreOwn(w, c)
  {
    var w' := CreateOrGet(w, n, c, true);
    if OwnRecordsAreOwn(w, c) {
      forall m, t | t in TopicsOf(w', m) ensures Message(m, t) in w'.sent[Peer(n)] || Heard(m, t, c) in w'.heard {
        assert m in w.announcements && w'.announcements[m] == w.announcements[m];
      }
    }
    if ToldEveryTopic(w', Peer(n), c) {
      forall m, t | m in w.announcements && w.announcements[m].connection == c && t in w.announcements[m].topics
        ensures Heard(m, t, c) in w.heard
      {
        assert t in TopicsOf(w', m);
        assert Message(m, t) !in w'.sent[Peer(n)];
      }
    }
  }

  /** The same holds of the replay to the node this one connects to. */
  lemma ConnectTellsEveryTopicIff(w: World, self: Node, n: Node, lookup: Conn, own: set<Topic>)
    requires Inv(w) && w.connectedTo.None? && self !in w.announcements
    ensures
      var w' := Connect(w, self, n, lookup, own);
      && w'.connectedTo.Some? && Upstream in w'.sent
      && (ToldEveryTopic(w', Upstream, w'.connectedTo.value) <==> OwnRecordsAreOwn(w, w'.connectedTo.value))
  {
    var w' := Connect(w, self, n, lookup, own);
    var c := w'.connectedTo.value;
    if OwnRecordsAreOwn(w, c) {
      forall m, t | t in TopicsOf(w', m) ensures Message(m, t) in w'.sent[Upstream] || Heard(m, t, c) in w'.heard {
        assert m in w.announcements && w'.announcements[m] == w.announcements[m];
      }
    }
    if ToldEveryTopic(w', Upstream, c) {
      forall m, t | m in w.announcements && w.announcements[m].connection == c && t in w.announcements[m].topics
        ensures Heard(m, t, c) in w.heard
      {
        assert t in TopicsOf(w', m);
        assert Message(m, t) !in w'.sent[Upstream];
      }
    }
  }

  /** In every reachable state the replay to the node this one connects to is complete topic by topic exactly when no
      record last updated from its connection holds a topic that came from elsewhere. */
  lemma ConnectingTellsEveryTopicIff(self: Node, ss: seq<Step>, n: Node, lookup: Conn, own: set<Topic>)
    requires Possible(self, ss + [ConnectStep(n, lookup, own)])
    ensures
      var w, w' := After(self, ss), After(self, ss + [ConnectStep(n, lookup, own)]);
      && w'.connectedTo.Some? && Upstream in w'.sent
      && (ToldEveryTopic(w', Upstream, w'.connectedTo.value) <==> OwnRecordsAreOwn(w, w'.connectedTo.value))
  {
    var s := ConnectStep(n, lookup, own);
    assert (ss + [s])[..|ss|] == ss;
    EveryRunKeepsInv(self, ss);
    NeverRecordsItself(self, ss);
    ConnectTellsEveryTopicIff(After(self, ss), self, n, lookup, own);
  }

  lemma AnnounceTells(w: World, self: Node, n: Node, ts: set<Topic>, source: Option<Conn>, l: Link, c: Conn)
    requires l in w.sent && LinkConnection(w, l) == Some(c) && ToldEveryTopic(w, l, c)
    ensures ToldEveryTopic(Announce(w, self, n, ts, source), l, c)
  {
    var w' := Announce(w, self, n, ts, source);
    forall m, t | t in TopicsOf(w', m) ensures Message(m, t) in w'.sent[l] || Heard(m, t, c) in w'.heard {
      if t in TopicsOf(w, m) {
        assert Message(m, t) in w.sent[l] || Heard(m, t, c) in w.heard;
      } else {
        assert m == n && t in ts;
      }
    }
  }

  /** Records that stay keep their topics and where they were heard. */
  ghost predicate NothingNew(w: World, w': World) {
    forall n, t :: t in TopicsOf(w', n) ==>
      t in TopicsOf(w, n) && forall c :: Heard(n, t, c) in w.heard ==> Heard(n, t, c) in w'.heard
  }

  lemma ForgetBringsNothingNew(w: World, c: Conn)
    ensures NothingNew(w, Forget(w, c))
  {
  }

  lemma OthersBringNothingNew(w: World, self: Node, s: Step)
    requires !s.AnnounceStep?
    ensures NothingNew(w, Next(w, self, s))
  {
    forall c ensures NothingNew(w, Forget(w, c)) {
      ForgetBringsNothingNew(w, c);
    }
    match s
    case CreateOrGetStep(n, c, _) =>
      if n in w.sessions && w.sessions[n].connection != c {
        assert NothingNew(w, Forget(w, w.sessions[n].connection));
      }
    case ConnectStep(_, _, _) =>
    case DisconnectStep(c) => assert NothingNew(w, Forget(w, c));
    case CloseStep(c, _) => assert NothingNew(w, Forget(w, c));
  }

  /** A link that stays up on its connection keeps what it was sent. */
  lemma OthersKeepSent(w: World, self: Node, s: Step, l: Link, c: Conn)
    requires LinksOk(w) && Enabled(w, s) && !s.AnnounceStep? && l in w.sent && LinkConnection(w, l) == Some(c)
    requires l in Next(w, self, s).sent && LinkConnection(Next(w, self, s), l) == Some(c)
    ensures Next(w, self, s).sent[l] == w.sent[l]
  {
  }

  lemma StepKeepsTold(w: World, self: Node, s: Step, l: Link, c: Conn)
    requires LinksOk(w) && Enabled(w, s) && l in w.sent && LinkConnection(w, l) == Some(c) && ToldEveryTopic(w, l, c)
    requires l in Next(w, self, s).sent && LinkConnection(Next(w, self, s), l) == Some(c)
    ensures ToldEveryTopic(Next(w, self, s), l, c)
  {
    if s.AnnounceStep? {
      AnnounceTells(w, self, s.node, s.topics, s.source, l, c);
    } else {
      var w' := Next(w, self, s);
      OthersBringNothingNew(w, self, s);
      OthersKeepSent(w, self, s, l, c);
      forall n, t | t in TopicsOf(w', n) ensures Message(n, t) in w'.sent[l] || Heard(n, t, c) in w'.heard {
        assert Message(n, t) in w.sent[l] || Heard(n, t, c) in w.heard;
      }
    }
  }

  /** The link is up on connection `c` after the first `from` steps and after each of the others. */
  predicate StaysUp(self: Node, ss: seq<Step>, from: nat, l: Link, c: Conn)
    requires from <= |ss|
  {
    && LinkConnection(After(self, ss), l) == Some(c)
    && (from < |ss| ==> StaysUp(self, ss[..|ss| - 1], from, l, c))
  }

  lemma UpIsLinked(self: Node, ss: seq<Step>, l: Link)
    requires Possible(self, ss)
    ensures l in After(self, ss).sent <==> LinkConnection(After(self, ss), l).Some?
  {
    EveryRunKeepsInv(self, ss);
  }

  /** A link that has been told every topic stays so through every run of steps in which it stays up. */
  lemma {:induction false} ToldEveryTopicLasts(self: Node, ss: seq<Step>, from: nat, l: Link, c: Conn)
    requires Possible(self, ss) && from <= |ss| && StaysUp(self, ss, from, l, c)
    requires l in After(self, ss[..from]).sent && ToldEveryTopic(After(self, ss[..from]), l, c)
    ensures l in After(self, ss).sent && ToldEveryTopic(After(self, ss), l, c)
  {
    if from == |ss| {
      assert ss[..from] == ss;
    } else {
      var init := ss[..|ss| - 1];
      assert init[..from] == ss[..from];
      ToldEveryTopicLasts(self, init, from, l, c);
      UpIsLinked(self, ss, l);
      EveryRunKeepsInv(self, init);
      StepKeepsTold(After(self, init), self, ss[|ss| - 1], l, c);
    }
  }

  lemma RunSnoc(self: Node, ss: seq<Step>, s: Step)
    requires Possible(self, ss) && Enabled(After(self, ss), s)
    ensures Possible(self, ss + [s]) && After(self, ss + [s]) == Next(After(self, ss), self, s)
  {
    assert (ss + [s])[..|ss|] == ss;
  }

  /** Five steps after which a peer is never told topic `a`, which it did not announce: the node's record was updated
      from the peer's connection, with topic `b`, between the announcement and the replay. */
  function SkippingRun(a: Topic, b: Topic): seq<Step> {
    [CreateOrGetStep(1, 10, false), CreateOrGetStep(2, 20, false), AnnounceStep(5, {a}, Some(10))] +
    [AnnounceStep(5, {b}, Some(20))] +
    [CreateOrGetStep(2, 20, true)]
  }

  lemma SkippingSessions()
    ensures var ss := [CreateOrGetStep(1, 10, false), CreateOrGetStep(2, 20, false)];
      && Possible(0, ss)
      && After(0, ss).sessions == map[1 := Session(10, false), 2 := Session(20, false)]
      && After(0, ss).announcements == map[] && After(0, ss).heard == {} && After(0, ss).sent == map[]
  {
    var s1, s2 := CreateOrGetStep(1, 10, false), CreateOrGetStep(2, 20, false);
    RunSnoc(0, [], s1);
    assert [] + [s1] == [s1];
    RunSnoc(0, [s1], s2);
    assert [s1] + [s2] == [s1, s2];
  }

  lemma SkippingStart(a: Topic)
    ensures var ss := [CreateOrGetStep(1, 10, false), CreateOrGetStep(2, 20, false), AnnounceStep(5, {a}, Some(10))];
      && Possible(0, ss)
      && After(0, ss).sessions == map[1 := Session(10, false), 2 := Session(20, false)]
      && After(0, ss).announcements == map[5 := Record(10, {a})]
      && After(0, ss).heard == {Heard(5, a, 10)}
      && After(0, ss).sent == map[]
  {
    SkippingSessions();
    var ss, s3 := [CreateOrGetStep(1, 10, false), CreateOrGetStep(2, 20, false)], AnnounceStep(5, {a}, Some(10));
    var w := After(0, ss);
    assert 1 in w.sessions && HasNodeSession(w, 10);
    assert TopicsOf(w, 5) + {a} == {a};
    RunSnoc(0, ss, s3);
    assert ss + [s3] == [CreateOrGetStep(1, 10, false), CreateOrGetStep(2, 20, false), s3];
  }

  lemma UpgradeSkips(w: World, a: Topic, b: Topic)
    requires 2 in w.sessions && w.sessions[2] == Session(20, false)
    requires w.announcements == map[5 := Record(20, {a, b})] && Heard(5, a, 20) !in w.heard
    ensures var w' := CreateOrGet(w, 2, 20, true);
      && LinkConnection(w', Peer(2)) == Some(20) && Peer(2) in w'.sent
      && a in TopicsOf(w', 5) && Message(5, a) !in w'.sent[Peer(2)] && Heard(5, a, 20) !in w'.heard
  {
  }

  lemma ReplaySkipsForeignTopic(a: Topic, b: Topic)
    requires a != b
    ensures Possible(0, SkippingRun(a, b))
    ensures var w := After(0, SkippingRun(a, b));
      && LinkConnection(w, Peer(2)) == Some(20) && Peer(2) in w.sent
      && a in TopicsOf(w, 5) && Message(5, a) !in w.sent[Peer(2)] && Heard(5, a, 20) !in w.heard
  {
    SkippingStart(a);
    var ss := [CreateOrGetStep(1, 10, false), CreateOrGetStep(2, 20, false), AnnounceStep(5, {a}, Some(10))];
    var w := After(0, ss);
    assert 2 in w.sessions && HasNodeSession(w, 20);
    var s4, s5 := AnnounceStep(5, {b}, Some(20)), CreateOrGetStep(2, 20, true);
    assert TopicsOf(w, 5) + {b} == {a, b};
    RunSnoc(0, ss, s4);
    var w4 := After(0, ss + [s4]);
    assert w4.announcements == map[5 := Record(20, {a, b})];
    UpgradeSkips(w4, a, b);
    RunSnoc(0, ss + [s4], s5);
  }
}
