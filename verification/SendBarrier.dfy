/** What holds over every run of the handshake. */
module SendBarrier {
  import opened Samples
  import opened Handshake

  lemma {:induction false} EveryRunKeepsInv(ss: seq<Step>)
    requires Possible(ss)
    ensures Inv(After(ss))
  {
    if ss != [] {
      var init := ss[..|ss| - 1];
      EveryRunKeepsInv(init);
      NextKeepsInv(After(init), ss[|ss| - 1]);
    }
  }

  // ----- what an orderly log means -----

  lemma {:induction false} OrderlyPrefix(log: seq<Handshake.Event>, n: nat)
    requires Orderly(log) && n <= |log|
    ensures Orderly(log[..n]) && (n < |log| ==> MayFollow(log[..n], log[n]))
    decreases |log|
  {
    if n < |log| {
      if n < |log| - 1 {
        OrderlyPrefix(log[..|log| - 1], n);
        assert log[..|log| - 1][..n] == log[..n];
      }
    } else {
      assert log[..n] == log;
    }
  }

  /** `log[j]` is the subscriber's accept of the attempt by which the publisher connects in `log[i]`. */
  predicate Answers(log: seq<Handshake.Event>, i: nat, j: nat)
    requires i < |log| && log[i].PubConnected?
  {
    j < i && log[j].SubConnected? && log[j].attempt == log[i].attempt && log[j].sentOver == log[i].connection
  }

  /** No attempt is accepted twice, and none is used twice. */
  lemma AttemptsDiffer(log: seq<Handshake.Event>, j: nat, m: nat)
    requires Orderly(log) && j < m < |log|
    ensures log[j].SubConnected? && log[m].SubConnected? ==> log[j].attempt != log[m].attempt
    ensures log[j].PubConnected? && log[m].PubConnected? ==> log[j].attempt != log[m].attempt
  {
    OrderlyPrefix(log, m);
    assert log[..m][j] == log[j];
  }

  /** Each step in which the publisher becomes connected is caused by one earlier accept of the subscriber, for the same
      attempt, over the connection its confirmation was sent over; no other accept has that attempt, and no other
      connected step uses it. */
  lemma ConnectedByOneAccept(ss: seq<Step>, i: nat) returns (j: nat)
    requires Possible(ss) && i < |After(ss).log| && After(ss).log[i].PubConnected?
    ensures Answers(After(ss).log, i, j)
    ensures var log := After(ss).log;
      forall m :: 0 <= m < |log| && log[m].SubConnected? && log[m].attempt == log[i].attempt ==> m == j
    ensures var log := After(ss).log;
      forall m :: 0 <= m < |log| && log[m].PubConnected? && log[m].attempt == log[i].attempt ==> m == i
  {
    EveryRunKeepsInv(ss);
    var log := After(ss).log;
    var k := log[i].attempt;
    OrderlyPrefix(log, i);
    j :| 0 <= j < i && log[..i][j].SubConnected? && log[..i][j].attempt == k &&
      log[..i][j].sentOver == log[i].connection;
    forall m | 0 <= m < |log| && log[m].SubConnected? && log[m].attempt == k ensures m == j {
      if m != j {
        AttemptsDiffer(log, if m < j then m else j, if m < j then j else m);
      }
    }
    forall m | 0 <= m < |log| && log[m].PubConnected? && log[m].attempt == k ensures m == i {
      if m != i {
        AttemptsDiffer(log, if m < i then m else i, if m < i then i else m);
      }
    }
  }

  /** Without a disconnection in between, the subscriber is still connected by the attempt it accepted. */
  lemma {:induction false} StaysConnected(log: seq<Handshake.Event>, j: nat, n: nat)
    requires Orderly(log) && j < n <= |log| && log[j].SubConnected?
    requires forall m :: j < m < n ==> !log[m].SubDisconnected?
    ensures SubAfter(log[..n]) == Some((log[j].attempt, log[j].connection))
    decreases n
  {
    assert log[..n] == log[..n - 1] + [log[n - 1]];
    SubSnoc(log[..n - 1], log[n - 1]);
    if n - 1 > j {
      StaysConnected(log, j, n - 1);
      OrderlyPrefix(log, n - 1);
    }
  }

  /** The subscriber accepts at most one confirmation between disconnections. */
  lemma OneAcceptBetweenDisconnects(ss: seq<Step>, i: nat, j: nat) returns (m: nat)
    requires Possible(ss) && i < j < |After(ss).log| && After(ss).log[i].SubConnected? && After(ss).log[j].SubConnected?
    ensures i < m < j && After(ss).log[m] == SubDisconnected
  {
    EveryRunKeepsInv(ss);
    var log := After(ss).log;
    if forall m :: i < m < j ==> !log[m].SubDisconnected? {
      StaysConnected(log, i, j);
      OrderlyPrefix(log, j);
      assert false;
    }
    m :| i < m < j && log[m].SubDisconnected?;
  }

  /** The send barrier: when the publisher becomes connected, the subscriber has accepted that attempt, and it still is
      connected by it, over the connection the confirmation arrived on, unless it was disconnected in the meantime. */
  lemma SendBarrier(ss: seq<Step>, i: nat) returns (j: nat)
    requires Possible(ss) && i < |After(ss).log| && After(ss).log[i].PubConnected?
    ensures Answers(After(ss).log, i, j)
    ensures
      || (exists m :: j < m < i && After(ss).log[m] == SubDisconnected)
      || SubAfter(After(ss).log[..i]) == Some((After(ss).log[i].attempt, After(ss).log[j].connection))
  {
    j := ConnectedByOneAccept(ss, i);
    EveryRunKeepsInv(ss);
    var log := After(ss).log;
    if forall m :: j < m < i ==> !log[m].SubDisconnected? {
      StaysConnected(log, j, i);
    }
  }

  // ----- without a relay -----

  /** The confirmation arrives over the connection it was sent over. */
  predicate IsDirect(w: World, s: Step) {
    s.ConfirmCreateSession? && s.attempt in w.confirms ==> s.connection == w.confirms[s.attempt].connection
  }

  predicate DirectRun(ss: seq<Step>)
    requires Possible(ss)
  {
    ss == [] || (DirectRun(ss[..|ss| - 1]) && IsDirect(After(ss[..|ss| - 1]), ss[|ss| - 1]))
  }

  /** Every accept in the log is over the connection its confirmation was sent over. */
  ghost predicate AcceptsDirect(log: seq<Handshake.Event>) {
    forall j :: 0 <= j < |log| && log[j].SubConnected? ==> log[j].connection == log[j].sentOver
  }

  lemma DirectStep(w: World, s: Step)
    requires Enabled(w, s) && IsDirect(w, s) && AcceptsDirect(w.log)
    ensures AcceptsDirect(Next(w, s).log)
  {
  }

  lemma {:induction false} DirectAccepts(ss: seq<Step>)
    requires Possible(ss) && DirectRun(ss)
    ensures AcceptsDirect(After(ss).log)
  {
    if ss != [] {
      DirectAccepts(ss[..|ss| - 1]);
      DirectStep(After(ss[..|ss| - 1]), ss[|ss| - 1]);
    }
  }

  /** Between two nodes that talk directly, the publisher is connected over the subscriber's own connection, unless the
      subscriber was disconnected in the meantime. */
  lemma SameConnectionAtBothEnds(ss: seq<Step>, i: nat) returns (j: nat)
    requires Possible(ss) && DirectRun(ss) && i < |After(ss).log| && After(ss).log[i].PubConnected?
    ensures Answers(After(ss).log, i, j) && After(ss).log[j].connection == After(ss).log[i].connection
    ensures
      || (exists m :: j < m < i && After(ss).log[m] == SubDisconnected)
      || SubAfter(After(ss).log[..i]) == Some((After(ss).log[i].attempt, After(ss).log[i].connection))
  {
    j := SendBarrier(ss, i);
    DirectAccepts(ss);
  }
}
