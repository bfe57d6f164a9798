/** What a relay holds and has sent, as a function of the steps of its run. */
module RelayRuns {
  import opened Samples
  import opened Relay

  // ----- sessions -----

  /** The step makes a session of `n` on `c`, or finds it; with `forwards`, one that forwards announcements. */
  predicate Makes(s: Step, n: Node, c: Conn, forwards: bool) {
    s.CreateOrGetStep? && s.node == n && s.connection == c && (forwards ==> s.forwards)
  }

  predicate HasSession(w: World, n: Node, c: Conn, forwards: bool) {
    SessionOn(w, n, c) && (forwards ==> w.sessions[n].forwards)
  }

  lemma CreateMakesSession(w: World, m: Node, d: Conn, f: bool, n: Node, c: Conn, forwards: bool)
    ensures HasSession(CreateOrGet(w, m, d, f), n, c, forwards) <==>
      if m != n then HasSession(w, n, c, forwards)
      else d == c && (forwards ==> f || HasSession(w, n, c, true))
  {
    var w' := CreateOrGet(w, m, d, f);
    if m != n {
      assert n in w'.sessions <==> n in w.sessions;
      assert n in w.sessions ==> w'.sessions[n] == w.sessions[n];
    } else {
      assert n in w'.sessions && w'.sessions[n].connection == d;
    }
  }

  lemma StepMakesSession(w: World, self: Node, s: Step, n: Node, c: Conn, forwards: bool)
    ensures HasSession(Next(w, self, s), n, c, forwards) <==>
      Makes(s, n, c, forwards) || (HasSession(w, n, c, forwards) && !Ends(s, n, c))
  {
    if s.CreateOrGetStep? {
      CreateMakesSession(w, s.node, s.connection, s.forwards, n, c, forwards);
    } else if s.CloseStep? {
      var w' := Next(w, self, s);
      assert n in w'.sessions <==> n in w.sessions && !(s.node == n && w.sessions[n].connection == s.connection);
    } else {
      assert Next(w, self, s).sessions == w.sessions;
    }
  }

  ghost predicate MadeAndKept(ss: seq<Step>, n: Node, c: Conn, forwards: bool) {
    exists i: nat :: i < |ss| && Makes(ss[i], n, c, forwards) && NotEnded(ss, i + 1, n, c)
  }

  lemma MadeAndKeptStep(ss: seq<Step>, n: Node, c: Conn, forwards: bool)
    requires ss != []
    ensures MadeAndKept(ss, n, c, forwards) <==>
      || Makes(ss[|ss| - 1], n, c, forwards)
      || (MadeAndKept(ss[..|ss| - 1], n, c, forwards) && !Ends(ss[|ss| - 1], n, c))
  {
    var init, last := ss[..|ss| - 1], ss[|ss| - 1];
    if i: nat :| i < |init| && Makes(init[i], n, c, forwards) && NotEnded(init, i + 1, n, c) {
      assert ss[i] == init[i];
      NotEndedFront(ss, i + 1, n, c);
    }
    if Makes(last, n, c, forwards) {
      assert NotEnded(ss, |ss|, n, c);
      assert Makes(ss[|ss| - 1], n, c, forwards);
    }
    if i: nat :| i < |ss| && Makes(ss[i], n, c, forwards) && NotEnded(ss, i + 1, n, c) {
      if i < |ss| - 1 {
        assert init[i] == ss[i];
        NotEndedFront(ss, i + 1, n, c);
      }
    }
  }

  /** The sessions of a relay are those that were made on their connection and not ended since, and they forward
      announcements if they were asked to at some point since. */
  lemma {:induction false} SessionIffMade(self: Node, ss: seq<Step>, n: Node, c: Conn, forwards: bool)
    ensures HasSession(After(self, ss), n, c, forwards) <==> MadeAndKept(ss, n, c, forwards)
  {
    if ss != [] {
      var init := ss[..|ss| - 1];
      SessionIffMade(self, init, n, c, forwards);
      MadeAndKeptStep(ss, n, c, forwards);
      StepMakesSession(After(self, init), self, ss[|ss| - 1], n, c, forwards);
    }
  }

  // ----- close callbacks -----

  /** The step makes a session of `n` on `c` that was not there. */
  predicate Opens(w: World, s: Step, n: Node, c: Conn) {
    s.CreateOrGetStep? && s.node == n && s.connection == c && !SessionOn(w, n, c)
  }

  /** A close callback is registered for every session that is made, and runs once. */
  lemma StepRegisters(w: World, self: Node, s: Step, n: Node, c: Conn)
    requires Enabled(w, s)
    ensures Next(w, self, s).pending[Callback(c, n)] ==
      w.pending[Callback(c, n)] + (if Opens(w, s, n, c) then 1 else 0) - (if s == CloseStep(c, n) then 1 else 0)
  {
  }

  /** The number of sessions of `n` made on `c`, and of callbacks that ran for it. */
  function Opened(self: Node, ss: seq<Step>, n: Node, c: Conn): nat {
    if ss == [] then 0
    else
      Opened(self, ss[..|ss| - 1], n, c) +
      if Opens(After(self, ss[..|ss| - 1]), ss[|ss| - 1], n, c) then 1 else 0
  }

  function Closed(ss: seq<Step>, n: Node, c: Conn): nat {
    if ss == [] then 0 else Closed(ss[..|ss| - 1], n, c) + if ss[|ss| - 1] == CloseStep(c, n) then 1 else 0
  }

  /** Each session that was made has one callback, which has run or will run. */
  lemma {:induction false} OneCallbackPerSession(self: Node, ss: seq<Step>, n: Node, c: Conn)
    requires Possible(self, ss)
    ensures After(self, ss).pending[Callback(c, n)] + Closed(ss, n, c) == Opened(self, ss, n, c)
  {
    if ss != [] {
      OneCallbackPerSession(self, ss[..|ss| - 1], n, c);
      StepRegisters(After(self, ss[..|ss| - 1]), self, ss[|ss| - 1], n, c);
    }
  }

  // ----- records -----

  /** The connection is one of a node session or of the link to the node this one connects to. */
  ghost predicate IsTracked(w: World, c: Conn) {
    w.connectedTo == Some(c) || exists n :: SessionOn(w, n, c)
  }

  /** The step records an announcement of `n` that came over `c`. */
  ghost predicate Records(w: World, self: Node, s: Step, n: Node, c: Conn) {
    s.AnnounceStep? && s.node == n && n != self && s.source == Some(c) && IsTracked(w, c)
  }

  /** The step drops what came over `c`: the connection is closed, or a node left it for another one. */
  predicate Drops(w: World, s: Step, c: Conn) {
    || (s.CloseStep? && s.connection == c)
    || (s.DisconnectStep? && s.connection == c)
    || (s.CreateOrGetStep? && SessionOn(w, s.node, c) && s.connection != c)
  }

  /** The step drops the record of `n`: it drops the connection `n` was last announced over. */
  predicate Forgets(w: World, s: Step, n: Node) {
    n in w.announcements && Drops(w, s, w.announcements[n].connection)
  }

  lemma TrackedIsSession(w: World, c: Conn)
    ensures IsTracked(w, c) <==> HasNodeSession(w, c)
  {
    if n :| SessionOn(w, n, c) {
      assert n in w.sessions && w.sessions[n].connection == c;
    }
    if n :| n in w.sessions && w.sessions[n].connection == c {
      assert SessionOn(w, n, c);
    }
  }

  lemma OthersOnlyForget(w: World, self: Node, s: Step, n: Node)
    requires !s.AnnounceStep?
    ensures n in Next(w, self, s).announcements <==> n in w.announcements && !Forgets(w, s, n)
    ensures n in Next(w, self, s).announcements ==> Next(w, self, s).announcements[n] == w.announcements[n]
  {
  }

  /** What a step does to the record of `n`. */
  lemma StepRecords(w: World, self: Node, s: Step, n: Node, t: Topic)
    ensures t in TopicsOf(Next(w, self, s), n) <==>
      || (exists c :: Records(w, self, s, n, c) && t in s.topics)
      || (t in TopicsOf(w, n) && !Forgets(w, s, n))
    ensures n in Next(w, self, s).announcements <==>
      (exists c :: Records(w, self, s, n, c)) || (n in w.announcements && !Forgets(w, s, n))
    ensures forall c :: Records(w, self, s, n, c) ==>
      n in Next(w, self, s).announcements && Next(w, self, s).announcements[n].connection == c
    ensures (forall c :: !Records(w, self, s, n, c)) && n in Next(w, self, s).announcements ==>
      n in w.announcements && Next(w, self, s).announcements[n] == w.announcements[n]
  {
    if s.AnnounceStep? {
      if s.source.Some? {
        TrackedIsSession(w, s.source.value);
        assert Records(w, self, s, s.node, s.source.value) <==> s.node != self && HasNodeSession(w, s.source.value);
      }
    } else {
      OthersOnlyForget(w, self, s, n);
    }
  }

  ghost predicate AnnouncedAt(self: Node, ss: seq<Step>, i: nat, n: Node, t: Topic)
    requires i < |ss|
  {
    exists c :: Records(After(self, ss[..i]), self, ss[i], n, c) && t in ss[i].topics
  }

  predicate ForgetsAt(self: Node, ss: seq<Step>, j: nat, n: Node)
    requires j < |ss|
  {
    Forgets(After(self, ss[..j]), ss[j], n)
  }

  lemma ForgetsAtFront(self: Node, ss: seq<Step>, j: nat, n: Node)
    requires j < |ss| - 1
    ensures ForgetsAt(self, ss[..|ss| - 1], j, n) == ForgetsAt(self, ss, j, n)
  {
    assert ss[..|ss| - 1][j] == ss[j] && ss[..|ss| - 1][..j] == ss[..j];
  }

  ghost predicate NotForgotten(self: Node, ss: seq<Step>, from: nat, n: Node) {
    forall j: nat :: from <= j < |ss| ==> !ForgetsAt(self, ss, j, n)
  }

  ghost predicate AnnouncedAndKept(self: Node, ss: seq<Step>, n: Node, t: Topic) {
    exists i: nat :: i < |ss| && AnnouncedAt(self, ss, i, n, t) && NotForgotten(self, ss, i + 1, n)
  }

  lemma NotForgottenFront(self: Node, ss: seq<Step>, from: nat, n: Node)
    requires from < |ss|
    ensures NotForgotten(self, ss, from, n) <==>
      NotForgotten(self, ss[..|ss| - 1], from, n) && !Forgets(After(self, ss[..|ss| - 1]), ss[|ss| - 1], n)
  {
    var init, last := ss[..|ss| - 1], |ss| - 1;
    assert ForgetsAt(self, ss, last, n) == Forgets(After(self, init), ss[last], n);
    forall j: nat | from <= j < last ensures ForgetsAt(self, init, j, n) == ForgetsAt(self, ss, j, n) {
      ForgetsAtFront(self, ss, j, n);
    }
    if NotForgotten(self, init, from, n) && !ForgetsAt(self, ss, last, n) {
      forall j: nat | from <= j < |ss| ensures !ForgetsAt(self, ss, j, n) {
        assert j < last ==> !ForgetsAt(self, init, j, n);
      }
    }
    if NotForgotten(self, ss, from, n) {
      forall j: nat | from <= j < |init| ensures !ForgetsAt(self, init, j, n) {
        assert !ForgetsAt(self, ss, j, n);
      }
    }
  }

  lemma AnnouncedFront(self: Node, ss: seq<Step>, i: nat, n: Node, t: Topic)
    requires i < |ss| - 1
    ensures AnnouncedAt(self, ss[..|ss| - 1], i, n, t) <==> AnnouncedAt(self, ss, i, n, t)
  {
    assert ss[..|ss| - 1][i] == ss[i] && ss[..|ss| - 1][..i] == ss[..i];
  }

  lemma KeptFromFront(self: Node, ss: seq<Step>, n: Node, t: Topic)
    requires ss != [] && AnnouncedAndKept(self, ss[..|ss| - 1], n, t)
    requires !Forgets(After(self, ss[..|ss| - 1]), ss[|ss| - 1], n)
    ensures AnnouncedAndKept(self, ss, n, t)
  {
    var init := ss[..|ss| - 1];
    var i: nat :| i < |init| && AnnouncedAt(self, init, i, n, t) && NotForgotten(self, init, i + 1, n);
    AnnouncedFront(self, ss, i, n, t);
    NotForgottenFront(self, ss, i + 1, n);
  }

  lemma KeptToFront(self: Node, ss: seq<Step>, n: Node, t: Topic)
    requires ss != [] && AnnouncedAndKept(self, ss, n, t) && !AnnouncedAt(self, ss, |ss| - 1, n, t)
    ensures AnnouncedAndKept(self, ss[..|ss| - 1], n, t) && !Forgets(After(self, ss[..|ss| - 1]), ss[|ss| - 1], n)
  {
    var i: nat :| i < |ss| && AnnouncedAt(self, ss, i, n, t) && NotForgotten(self, ss, i + 1, n);
    AnnouncedFront(self, ss, i, n, t);
    NotForgottenFront(self, ss, i + 1, n);
  }

  lemma AnnouncedAndKeptStep(self: Node, ss: seq<Step>, n: Node, t: Topic)
    requires ss != []
    ensures AnnouncedAndKept(self, ss, n, t) <==>
      || AnnouncedAt(self, ss, |ss| - 1, n, t)
      || (AnnouncedAndKept(self, ss[..|ss| - 1], n, t) && !Forgets(After(self, ss[..|ss| - 1]), ss[|ss| - 1], n))
  {
    if AnnouncedAt(self, ss, |ss| - 1, n, t) {
      assert NotForgotten(self, ss, |ss|, n);
    } else if AnnouncedAndKept(self, ss, n, t) {
      KeptToFront(self, ss, n, t);
    } else if AnnouncedAndKept(self, ss[..|ss| - 1], n, t) {
      if !Forgets(After(self, ss[..|ss| - 1]), ss[|ss| - 1], n) {
        KeptFromFront(self, ss, n, t);
      }
    }
  }

  /** A topic is on record for a node exactly when it was announced over a tracked connection, and since then no
      connection was dropped over which the node had been announced last. */
  lemma {:induction false} RecordedIffAnnounced(self: Node, ss: seq<Step>, n: Node, t: Topic)
    ensures t in TopicsOf(After(self, ss), n) <==> AnnouncedAndKept(self, ss, n, t)
  {
    if ss != [] {
      var init := ss[..|ss| - 1];
      RecordedIffAnnounced(self, init, n, t);
      AnnouncedAndKeptStep(self, ss, n, t);
      StepRecords(After(self, init), self, ss[|ss| - 1], n, t);
    }
  }

  // ----- what a link is sent -----

  /** The step announces the message over every link but those on the connection it came from: announcements of other
      nodes, and this node's own ones when they are made here. */
  predicate Announces(self: Node, s: Step, c: Conn, m: Message) {
    && s.AnnounceStep? && s.node == m.node && m.topic in s.topics
    && s.source != Some(c)
    && (s.source.None? || s.node != self)
  }

  lemma AnnounceSends(w: World, self: Node, s: Step, l: Link, c: Conn, m: Message)
    requires s.AnnounceStep? && l in w.sent && LinkConnection(w, l) == Some(c)
    ensures l in Next(w, self, s).sent
    ensures m in Next(w, self, s).sent[l] <==> m in w.sent[l] || Announces(self, s, c, m)
  {
    assert m in Messages(s.node, s.topics) <==> m.node == s.node && m.topic in s.topics;
    if s.source.Some? {
      assert LinkConnection(Retain(w, s.node, s.topics, s.source.value), l) == LinkConnection(w, l);
    }
  }

  lemma StepSends(w: World, self: Node, s: Step, l: Link, c: Conn, m: Message)
    requires LinksOk(w) && Enabled(w, s) && l in w.sent && LinkConnection(w, l) == Some(c)
    requires l in Next(w, self, s).sent && LinkConnection(Next(w, self, s), l) == Some(c)
    ensures m in Next(w, self, s).sent[l] <==> m in w.sent[l] || Announces(self, s, c, m)
  {
    if s.AnnounceStep? {
      AnnounceSends(w, self, s, l, c, m);
    } else {
      OthersKeepSent(w, self, s, l, c);
    }
  }

  ghost predicate AnnouncedSince(self: Node, ss: seq<Step>, from: nat, c: Conn, m: Message) {
    exists i: nat :: from <= i < |ss| && Announces(self, ss[i], c, m)
  }

  lemma AnnouncedSinceStep(self: Node, ss: seq<Step>, from: nat, c: Conn, m: Message)
    requires from < |ss|
    ensures AnnouncedSince(self, ss, from, c, m) <==>
      AnnouncedSince(self, ss[..|ss| - 1], from, c, m) || Announces(self, ss[|ss| - 1], c, m)
  {
    var init := ss[..|ss| - 1];
    if i: nat :| from <= i < |init| && Announces(self, init[i], c, m) {
      assert Announces(self, ss[i], c, m);
    }
    if i: nat :| from <= i < |ss| && Announces(self, ss[i], c, m) {
      assert i < |init| ==> Announces(self, init[i], c, m);
    }
  }

  /** While a link stays up it is sent every announcement but those that come over its own connection, and nothing
      else. */
  lemma {:induction false} SentIffAnnounced(self: Node, ss: seq<Step>, from: nat, l: Link, c: Conn, m: Message)
    requires Possible(self, ss) && from <= |ss| && StaysUp(self, ss, from, l, c)
    requires l in After(self, ss[..from]).sent
    ensures l in After(self, ss).sent
    ensures m in After(self, ss).sent[l] <==>
      m in After(self, ss[..from]).sent[l] || AnnouncedSince(self, ss, from, c, m)
  {
    UpIsLinked(self, ss, l);
    if from == |ss| {
      assert ss[..from] == ss;
    } else {
      var init := ss[..|ss| - 1];
      assert init[..from] == ss[..from];
      SentIffAnnounced(self, init, from, l, c, m);
      EveryRunKeepsInv(self, init);
      StepSends(After(self, init), self, ss[|ss| - 1], l, c, m);
      AnnouncedSinceStep(self, ss, from, c, m);
    }
  }

  /** A recorded announcement that did not come over `c` last. */
  predicate Elsewhere(w: World, c: Conn, m: Message) {
    && m.node in w.announcements && w.announcements[m.node].connection != c
    && m.topic in w.announcements[m.node].topics
  }

  /** The connection of the link to a node: that of its session, if it has one. */
  function LinkTo(w: World, n: Node, lookup: Conn): Conn {
    if n in w.sessions then w.sessions[n].connection else lookup
  }

  predicate NotDisconnected(ss: seq<Step>, from: nat) {
    forall j :: from <= j < |ss| ==> !ss[j].DisconnectStep?
  }

  ghost predicate LinkedAndKept(self: Node, ss: seq<Step>, c: Conn) {
    exists i: nat ::
      && i < |ss| && ss[i].ConnectStep? && LinkTo(After(self, ss[..i]), ss[i].node, ss[i].lookup) == c
      && NotDisconnected(ss, i + 1)
  }

  lemma NotDisconnectedFront(ss: seq<Step>, from: nat)
    requires from < |ss|
    ensures NotDisconnected(ss, from) <==> NotDisconnected(ss[..|ss| - 1], from) && !ss[|ss| - 1].DisconnectStep?
  {
    var init := ss[..|ss| - 1];
    assert forall j :: from <= j < |init| ==> init[j] == ss[j];
  }

  lemma LinkedFromFront(self: Node, ss: seq<Step>, c: Conn)
    requires ss != [] && LinkedAndKept(self, ss[..|ss| - 1], c) && !ss[|ss| - 1].DisconnectStep?
    ensures LinkedAndKept(self, ss, c)
  {
    var init := ss[..|ss| - 1];
    var i: nat :| i < |init| && init[i].ConnectStep?
      && LinkTo(After(self, init[..i]), init[i].node, init[i].lookup) == c && NotDisconnected(init, i + 1);
    assert init[i] == ss[i] && init[..i] == ss[..i];
    NotDisconnectedFront(ss, i + 1);
  }

  lemma LinkedToFront(self: Node, ss: seq<Step>, c: Conn)
    requires ss != [] && LinkedAndKept(self, ss, c)
    requires var s := ss[|ss| - 1];
      !(s.ConnectStep? && LinkTo(After(self, ss[..|ss| - 1]), s.node, s.lookup) == c)
    ensures LinkedAndKept(self, ss[..|ss| - 1], c) && !ss[|ss| - 1].DisconnectStep?
  {
    var init := ss[..|ss| - 1];
    var i: nat :| i < |ss| && ss[i].ConnectStep?
      && LinkTo(After(self, ss[..i]), ss[i].node, ss[i].lookup) == c && NotDisconnected(ss, i + 1);
    assert i < |init| && init[i] == ss[i] && init[..i] == ss[..i];
    NotDisconnectedFront(ss, i + 1);
  }

  /** The link to the node this one connects to is up from connecting to disconnecting, on the connection of that node's
      session if it has one. */
  lemma {:induction false} LinkedIffConnected(self: Node, ss: seq<Step>, c: Conn)
    requires Possible(self, ss)
    ensures After(self, ss).connectedTo == Some(c) <==> LinkedAndKept(self, ss, c)
  {
    if ss != [] {
      var init, s := ss[..|ss| - 1], ss[|ss| - 1];
      LinkedIffConnected(self, init, c);
      if s.ConnectStep? && LinkTo(After(self, init), s.node, s.lookup) == c {
        assert NotDisconnected(ss, |ss|);
      } else {
        if LinkedAndKept(self, ss, c) {
          LinkedToFront(self, ss, c);
        }
        if LinkedAndKept(self, init, c) && !s.DisconnectStep? {
          LinkedFromFront(self, ss, c);
        }
      }
    }
  }

  /** On connecting, the node it connects to is sent this node's own topics and the announcements recorded from
      elsewhere, and nothing else. */
  lemma ConnectSends(w: World, self: Node, n: Node, lookup: Conn, own: set<Topic>, m: Message)
    ensures
      var w' := Next(w, self, ConnectStep(n, lookup, own));
      && w'.connectedTo == Some(LinkTo(w, n, lookup)) && Upstream in w'.sent
      && (m in w'.sent[Upstream] <==> (m.node == self && m.topic in own) || Elsewhere(w, LinkTo(w, n, lookup), m))
  {
    var c := LinkTo(w, n, lookup);
    assert m in Known(w, c) <==> Elsewhere(w, c, m);
    assert m in Messages(self, own) <==> m.node == self && m.topic in own;
  }

  /** A session that starts to forward is sent the announcements recorded from elsewhere, and nothing else. */
  lemma SessionSends(w: World, self: Node, n: Node, c: Conn, m: Message)
    requires !HasSession(w, n, c, true)
    ensures
      var w' := Next(w, self, CreateOrGetStep(n, c, true));
      Peer(n) in w'.sent && (m in w'.sent[Peer(n)] <==> Elsewhere(w', c, m))
  {
    var w' := Next(w, self, CreateOrGetStep(n, c, true));
    assert w'.sent[Peer(n)] == Known(w', c);
    assert m in Known(w', c) <==> Elsewhere(w', c, m);
  }

  /** What the node this one connected to has been sent, as long as the link stays up: this node's topics as they were
      on connecting, the announcements recorded from elsewhere then, every announcement made here since, and every one
      that came over another connection. */
  lemma UpstreamIsTold(self: Node, ss: seq<Step>, at: nat, m: Message)
    requires Possible(self, ss) && at < |ss| && ss[at].ConnectStep?
    requires var c := LinkTo(After(self, ss[..at]), ss[at].node, ss[at].lookup); StaysUp(self, ss, at + 1, Upstream, c)
    ensures
      var w := After(self, ss[..at]);
      var c := LinkTo(w, ss[at].node, ss[at].lookup);
      && Upstream in After(self, ss).sent
      && (m in After(self, ss).sent[Upstream] <==>
          || (m.node == self && m.topic in ss[at].own)
          || Elsewhere(w, c, m)
          || AnnouncedSince(self, ss, at + 1, c, m))
  {
    var w := After(self, ss[..at]);
    assert ss[..at + 1][..at] == ss[..at] && ss[..at + 1][at] == ss[at];
    ConnectSends(w, self, ss[at].node, ss[at].lookup, ss[at].own, m);
    SentIffAnnounced(self, ss, at + 1, Upstream, LinkTo(w, ss[at].node, ss[at].lookup), m);
  }
}
