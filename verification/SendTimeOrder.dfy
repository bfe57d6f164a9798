/** The SendTime discard policy under every arrival order. */
module SendTimeOrder {
  import opened Samples
  import opened PublishLog
  import opened InitBatch
  import opened Reader

  /** Full values with distinct timestamps after the epoch. */
  ghost predicate Timed(p: seq<Sample>) {
    && (forall i :: 0 <= i < |p| ==> (p[i].event.Add? || p[i].event.Update?) && p[i].timestamp > 0)
    && (forall i, j :: 0 <= i < j < |p| ==> p[i].timestamp != p[j].timestamp)
  }

  /** The sample as the reader holds it once decoded. */
  function Full(c: Codec, s: Sample): Sample {
    if s.value.None? then Decode(c, s) else s
  }

  function Latest(p: seq<Sample>): Sample
    requires p != []
  {
    if |p| == 1 then p[0]
    else if Latest(Front(p)).timestamp < Last(p).timestamp then Last(p)
    else Latest(Front(p))
  }

  lemma {:induction false} LatestIsGreatest(p: seq<Sample>)
    requires p != []
    ensures Latest(p) in p
    ensures forall i :: 0 <= i < |p| ==> p[i].timestamp <= Latest(p).timestamp
  {
    if |p| > 1 {
      assert p == Front(p) + [Last(p)];
      LatestIsGreatest(Front(p));
    }
  }

  ghost predicate ByTime(env: ReaderEnv, d: Delivery, p: seq<Sample>) {
    env.policy.SendTime? && forall i :: 0 <= i < |p| ==> Wanted(env, d, p[i].key)
  }

  ghost predicate ComesFrom(c: Codec, p: seq<Sample>, k: Key, base: Sample) {
    exists i :: 0 <= i < |p| && p[i].key == k && base == Full(c, p[i])
  }

  ghost predicate SettledBases(c: Codec, p: seq<Sample>, bases: map<Key, Sample>) {
    bases.Keys == KeySet(p) && forall k :: k in bases ==> ComesFrom(c, p, k, bases[k])
  }

  ghost predicate SettledLatest(c: Codec, p: seq<Sample>, st: ReaderState) {
    if p == [] then st.lastSendTime == 0
    else
      && st.lastSendTime == Latest(p).timestamp
      && Latest(p).key in st.bases
      && st.bases[Latest(p).key] == Full(c, Latest(p))
      && st.calls != []
      && Last(st.calls) == Full(c, Latest(p))
  }

  /** What the reader holds after `p` arrived: the latest sample is delivered last and is its key's base, and every
      other key has some sample of its own as base. */
  ghost predicate Settled(c: Codec, p: seq<Sample>, st: ReaderState) {
    SettledBases(c, p, st.bases) && SettledLatest(c, p, st)
  }

  lemma LatestSnoc(p: seq<Sample>, s: Sample)
    ensures Latest(p + [s]) == if p == [] || Latest(p).timestamp < s.timestamp then s else Latest(p)
  {
    if p != [] {
      assert Front(p + [s]) == p;
    }
  }

  lemma ComesFromSnoc(c: Codec, p: seq<Sample>, s: Sample, k: Key, base: Sample)
    requires ComesFrom(c, p, k, base) || (k == s.key && base == Full(c, s))
    ensures ComesFrom(c, p + [s], k, base)
  {
    var q := p + [s];
    if ComesFrom(c, p, k, base) {
      var i :| 0 <= i < |p| && p[i].key == k && base == Full(c, p[i]);
      assert q[i] == p[i];
    } else {
      assert q[|p|] == s;
    }
  }

  /** What one arrival does. */
  ghost predicate Arrives(c: Codec, st: ReaderState, s: Sample, st': ReaderState) {
    if s.timestamp > st.lastSendTime then
      && st'.bases == st.bases[s.key := Full(c, s)]
      && st'.lastSendTime == s.timestamp
      && st'.calls == st.calls + [Full(c, s)]
    else
      && st'.bases == (if s.key in st.bases then st.bases else st.bases[s.key := Full(c, s)])
      && st'.lastSendTime == st.lastSendTime
      && st'.calls == st.calls
  }

  lemma QueueByTime(env: ReaderEnv, d: Delivery, st: ReaderState, s: Sample)
    requires env.policy.SendTime? && Wanted(env, d, s.key) && (s.event.Add? || s.event.Update?)
    ensures Arrives(env.codec, st, s, Queue(env, d, st, s))
  {
  }

  lemma ArrivalSettlesBases(c: Codec, p: seq<Sample>, s: Sample, st: ReaderState, st': ReaderState)
    requires SettledBases(c, p, st.bases) && Arrives(c, st, s, st')
    ensures SettledBases(c, p + [s], st'.bases)
  {
    KeySetSnoc(p, s);
    assert st'.bases.Keys == st.bases.Keys + {s.key};
    forall k | k in st'.bases ensures ComesFrom(c, p + [s], k, st'.bases[k]) {
      ComesFromSnoc(c, p, s, k, st'.bases[k]);
    }
  }

  lemma ArrivalSettlesLatest(c: Codec, p: seq<Sample>, s: Sample, st: ReaderState, st': ReaderState)
    requires SettledLatest(c, p, st) && Arrives(c, st, s, st') && s.timestamp > 0
    ensures SettledLatest(c, p + [s], st')
  {
    LatestSnoc(p, s);
  }

  lemma {:induction false} ArrivalsSettle(env: ReaderEnv, d: Delivery, p: seq<Sample>)
    requires ByTime(env, d, p) && Timed(p)
    ensures Settled(env.codec, p, QueueAll(env, d, FRESH_READER, p))
  {
    if p != [] {
      assert p == Front(p) + [Last(p)];
      ArrivalsSettle(env, d, Front(p));
      var st := QueueAll(env, d, FRESH_READER, Front(p));
      QueueByTime(env, d, st, Last(p));
      ArrivalSettlesBases(env.codec, Front(p), Last(p), st, Queue(env, d, st, Last(p)));
      ArrivalSettlesLatest(env.codec, Front(p), Last(p), st, Queue(env, d, st, Last(p)));
    }
  }

  ghost predicate SameView(env: ReaderEnv, d: Delivery, p: seq<Sample>, p': seq<Sample>) {
    var st, st' := QueueAll(env, d, FRESH_READER, p), QueueAll(env, d, FRESH_READER, p');
    st.bases == st'.bases && st.lastSendTime == st'.lastSendTime && (p != [] && p' != [] ==>
      st.calls != [] && st'.calls != [] && Last(st.calls) == Last(st'.calls))
  }

  /** Every arrival order of the same samples leaves the same view. */
  ghost predicate Converges(env: ReaderEnv, d: Delivery, p: seq<Sample>) {
    forall p', p'' :: multiset(p') == multiset(p) && multiset(p'') == multiset(p) ==> SameView(env, d, p', p'')
  }

  /** No key other than the latest sample's own has two samples. */
  ghost predicate OthersPublishOnce(p: seq<Sample>)
    requires p != []
  {
    forall i, j :: 0 <= i < j < |p| && p[i].key == p[j].key ==> p[i].key == Latest(p).key
  }

  /** The base of a key is the same whatever the arrival order, for the latest sample's key and for a key with one
      sample. */
  lemma BaseIsForced(c: Codec, p: seq<Sample>, k: Key, st: ReaderState, s: Sample)
    requires p != [] && Settled(c, p, st) && s in p && s.key == k
    requires s == Latest(p) || forall i :: 0 <= i < |p| && p[i].key == k ==> p[i] == s
    ensures k in st.bases && st.bases[k] == Full(c, s)
  {
    var i :| 0 <= i < |p| && p[i] == s;
    assert p[i].key in KeySet(p);
    assert ComesFrom(c, p, k, st.bases[k]);
  }

  lemma SameElements(p: seq<Sample>, p': seq<Sample>)
    requires multiset(p') == multiset(p)
    ensures forall s :: s in p <==> s in p'
    ensures KeySet(p) == KeySet(p')
  {
    forall s ensures s in p <==> s in p' {
      assert s in p <==> s in multiset(p);
      assert s in p' <==> s in multiset(p');
    }
    forall k ensures k in KeySet(p) <==> k in KeySet(p') {
      if k in KeySet(p) {
        var i :| 0 <= i < |p| && p[i].key == k;
        assert p[i] in p';
      }
      if k in KeySet(p') {
        var i :| 0 <= i < |p'| && p'[i].key == k;
        assert p'[i] in p;
      }
    }
  }

  lemma LatestOfPermutation(p: seq<Sample>, p': seq<Sample>)
    requires Timed(p) && p != [] && multiset(p') == multiset(p)
    ensures p' != [] && Latest(p') == Latest(p)
  {
    SameElements(p, p');
    assert p[0] in p';
    LatestIsGreatest(p);
    LatestIsGreatest(p');
    var m, m' := Latest(p), Latest(p');
    assert m in p' && m' in p;
  }

  lemma {:induction false} TimedIsDistinct(p: seq<Sample>, s: Sample)
    requires Timed(p)
    ensures multiset(p)[s] <= 1
  {
    if p != [] {
      assert p == Front(p) + [Last(p)];
      TimedIsDistinct(Front(p), s);
      if s in Front(p) {
        var i :| 0 <= i < |Front(p)| && Front(p)[i] == s;
        assert p[i] == s;
      }
    }
  }

  lemma RepeatedTwice(p: seq<Sample>, i: nat, j: nat)
    requires i < j < |p| && p[i] == p[j]
    ensures multiset(p)[p[i]] >= 2
  {
    assert p == p[..j] + [p[j]] + p[j + 1..];
    assert p[..j][i] == p[i];
  }

  lemma TimedPermutation(p: seq<Sample>, p': seq<Sample>)
    requires Timed(p) && multiset(p') == multiset(p)
    ensures Timed(p')
  {
    SameElements(p, p');
    forall i | 0 <= i < |p'| ensures (p'[i].event.Add? || p'[i].event.Update?) && p'[i].timestamp > 0 {
      assert p'[i] in p;
    }
    forall i, j | 0 <= i < j < |p'| ensures p'[i].timestamp != p'[j].timestamp {
      assert p'[i] in p && p'[j] in p;
      TimedIsDistinct(p, p'[i]);
      if p'[i] == p'[j] {
        RepeatedTwice(p', i, j);
      }
    }
  }

  lemma ByTimePermutation(env: ReaderEnv, d: Delivery, p: seq<Sample>, p': seq<Sample>)
    requires ByTime(env, d, p) && multiset(p') == multiset(p)
    ensures ByTime(env, d, p')
  {
    SameElements(p, p');
    forall i | 0 <= i < |p'| ensures Wanted(env, d, p'[i].key) {
      assert p'[i] in p;
    }
  }

  /** One arrival order leaves the bases that the samples force. */
  lemma PermutationSettles(env: ReaderEnv, d: Delivery, p: seq<Sample>, p': seq<Sample>)
    requires ByTime(env, d, p) && Timed(p) && p != [] && multiset(p') == multiset(p)
    ensures p' != [] && Latest(p') == Latest(p) && KeySet(p') == KeySet(p)
    ensures Settled(env.codec, p', QueueAll(env, d, FRESH_READER, p'))
  {
    TimedPermutation(p, p');
    ByTimePermutation(env, d, p, p');
    LatestOfPermutation(p, p');
    SameElements(p, p');
    ArrivalsSettle(env, d, p');
  }

  lemma ForcedBase(env: ReaderEnv, d: Delivery, p: seq<Sample>, p': seq<Sample>, i: nat)
    requires ByTime(env, d, p) && Timed(p) && i < |p| && OthersPublishOnce(p) && multiset(p') == multiset(p)
    ensures
      var st, k := QueueAll(env, d, FRESH_READER, p'), p[i].key;
      k in st.bases && st.bases[k] == Full(env.codec, if k == Latest(p).key then Latest(p) else p[i])
  {
    PermutationSettles(env, d, p, p');
    SameElements(p, p');
    var st, k := QueueAll(env, d, FRESH_READER, p'), p[i].key;
    var s := if k == Latest(p).key then Latest(p) else p[i];
    LatestIsGreatest(p);
    assert s in p;
    if k != Latest(p).key {
      forall j | 0 <= j < |p'| && p'[j].key == k ensures p'[j] == s {
        assert p'[j] in p;
        var m :| 0 <= m < |p| && p[m] == p'[j];
      }
    }
    BaseIsForced(env.codec, p', k, st, s);
  }

  lemma OnceImpliesSameView(env: ReaderEnv, d: Delivery, p: seq<Sample>, p': seq<Sample>, p'': seq<Sample>)
    requires ByTime(env, d, p) && Timed(p) && p != [] && OthersPublishOnce(p)
    requires multiset(p') == multiset(p) && multiset(p'') == multiset(p)
    ensures SameView(env, d, p', p'')
  {
    PermutationSettles(env, d, p, p');
    PermutationSettles(env, d, p, p'');
    var st, st' := QueueAll(env, d, FRESH_READER, p'), QueueAll(env, d, FRESH_READER, p'');
    forall k | k in st.bases ensures k in st'.bases && st.bases[k] == st'.bases[k] {
      assert k in KeySet(p);
      var i :| 0 <= i < |p| && p[i].key == k;
      ForcedBase(env, d, p, p', i);
      ForcedBase(env, d, p, p'', i);
    }
    assert st.bases.Keys == st'.bases.Keys;
  }

  // ----- two orders that differ -----

  function Without(p: seq<Sample>, s: Sample): (r: seq<Sample>)
    requires s in p
    ensures multiset(p) == multiset(r) + multiset{s}
  {
    assert p == [p[0]] + p[1..];
    if p[0] == s then p[1..] else [p[0]] + Without(p[1..], s)
  }

  lemma {:induction false} LateArrivalsIgnored(env: ReaderEnv, d: Delivery, st: ReaderState, rest: seq<Sample>, k: Key)
    requires ByTime(env, d, rest) && k in st.bases
    requires forall i :: 0 <= i < |rest| ==>
      (rest[i].event.Add? || rest[i].event.Update?) && rest[i].timestamp <= st.lastSendTime
    ensures var st' := QueueAll(env, d, st, rest);
      st'.lastSendTime == st.lastSendTime && k in st'.bases && st'.bases[k] == st.bases[k]
  {
    if rest != [] {
      LateArrivalsIgnored(env, d, st, Front(rest), k);
      QueueByTime(env, d, QueueAll(env, d, st, Front(rest)), Last(rest));
    }
  }

  lemma {:induction false} QueueAllConcat(env: ReaderEnv, d: Delivery, st: ReaderState, a: seq<Sample>, b: seq<Sample>)
    ensures QueueAll(env, d, st, a + b) == QueueAll(env, d, QueueAll(env, d, st, a), b)
  {
    if b == [] {
      assert a + b == a;
    } else {
      assert Front(a + b) == a + Front(b);
      QueueAllConcat(env, d, st, a, Front(b));
    }
  }

  /** Two samples of a key, then a later one of another key. */
  lemma UpdateThenOther(env: ReaderEnv, d: Delivery, a: Sample, b: Sample, m: Sample)
    requires ByTime(env, d, [a, b, m]) && Timed([a, b, m])
    requires a.timestamp < b.timestamp < m.timestamp && a.key == b.key != m.key
    ensures var st := QueueAll(env, d, FRESH_READER, [a, b, m]);
      st.lastSendTime == m.timestamp && a.key in st.bases && st.bases[a.key] == Full(env.codec, b)
  {
    var p := [a, b, m];
    assert p[0] == a && p[1] == b && p[2] == m;
    assert Front(p) == [a, b] && Front([a, b]) == [a] && Front([a]) == [];
    var one := Queue(env, d, FRESH_READER, a);
    var two := Queue(env, d, one, b);
    assert QueueAll(env, d, FRESH_READER, [a]) == one;
    assert QueueAll(env, d, FRESH_READER, [a, b]) == two;
    QueueByTime(env, d, FRESH_READER, a);
    QueueByTime(env, d, one, b);
    QueueByTime(env, d, two, m);
  }

  /** The same three, with the second sample of the key overtaken. */
  lemma OtherThenUpdate(env: ReaderEnv, d: Delivery, a: Sample, m: Sample, b: Sample)
    requires ByTime(env, d, [a, m, b]) && Timed([a, m, b])
    requires a.timestamp < b.timestamp < m.timestamp && a.key == b.key != m.key
    ensures var st := QueueAll(env, d, FRESH_READER, [a, m, b]);
      st.lastSendTime == m.timestamp && a.key in st.bases && st.bases[a.key] == Full(env.codec, a)
  {
    var p := [a, m, b];
    assert p[0] == a && p[1] == m && p[2] == b;
    assert Front(p) == [a, m] && Front([a, m]) == [a] && Front([a]) == [];
    var one := Queue(env, d, FRESH_READER, a);
    var two := Queue(env, d, one, m);
    assert QueueAll(env, d, FRESH_READER, [a]) == one;
    assert QueueAll(env, d, FRESH_READER, [a, m]) == two;
    QueueByTime(env, d, FRESH_READER, a);
    QueueByTime(env, d, one, m);
    QueueByTime(env, d, two, b);
  }

  /** The latest sample is in `first`, so whatever follows leaves key `k` alone. */
  lemma RestIgnored(env: ReaderEnv, d: Delivery, first: seq<Sample>, rest: seq<Sample>, k: Key)
    requires ByTime(env, d, first + rest) && Timed(first + rest)
    requires first != [] && QueueAll(env, d, FRESH_READER, first).lastSendTime == Latest(first + rest).timestamp
    requires k in QueueAll(env, d, FRESH_READER, first).bases
    ensures var st := QueueAll(env, d, FRESH_READER, first + rest);
      k in st.bases && st.bases[k] == QueueAll(env, d, FRESH_READER, first).bases[k]
  {
    QueueAllConcat(env, d, FRESH_READER, first, rest);
    LatestIsGreatest(first + rest);
    forall i | 0 <= i < |rest|
      ensures
        && (rest[i].event.Add? || rest[i].event.Update?)
        && rest[i].timestamp <= Latest(first + rest).timestamp
        && Wanted(env, d, rest[i].key)
    {
      assert (first + rest)[|first| + i] == rest[i];
    }
    LateArrivalsIgnored(env, d, QueueAll(env, d, FRESH_READER, first), rest, k);
  }

  lemma PrefixTimed(env: ReaderEnv, d: Delivery, first: seq<Sample>, rest: seq<Sample>)
    requires ByTime(env, d, first + rest) && Timed(first + rest)
    ensures ByTime(env, d, first) && Timed(first)
  {
    assert forall i :: 0 <= i < |first| ==> (first + rest)[i] == first[i];
  }

  lemma InWithout(p: seq<Sample>, s: Sample, t: Sample)
    requires s in p && t in p && s != t
    ensures t in Without(p, s)
  {
    assert t in multiset(p);
    assert t in multiset(Without(p, s));
  }

  lemma ThreeFirst(a: Sample, b: Sample, c: Sample, rest: seq<Sample>)
    ensures multiset([a, b, c] + rest) == multiset(rest) + multiset{c} + multiset{b} + multiset{a}
  {
    assert multiset([a, b, c]) == multiset{a, b, c};
  }

  lemma PickThree(p: seq<Sample>, a: Sample, b: Sample, m: Sample) returns (rest: seq<Sample>)
    requires a in p && b in p && m in p && a != b && b != m && a != m
    ensures multiset([a, b, m] + rest) == multiset(p)
    ensures multiset([a, m, b] + rest) == multiset(p)
  {
    InWithout(p, a, b);
    InWithout(p, a, m);
    var withoutA := Without(p, a);
    InWithout(withoutA, b, m);
    rest := Without(Without(withoutA, b), m);
    ThreeFirst(a, b, m, rest);
    ThreeFirst(a, m, b, rest);
  }

  lemma InOrderKeepsUpdate(env: ReaderEnv, d: Delivery, a: Sample, b: Sample, m: Sample, rest: seq<Sample>)
    requires ByTime(env, d, [a, b, m] + rest) && Timed([a, b, m] + rest) && Latest([a, b, m] + rest) == m
    requires a.timestamp < b.timestamp < m.timestamp && a.key == b.key != m.key
    ensures var st := QueueAll(env, d, FRESH_READER, [a, b, m] + rest);
      a.key in st.bases && st.bases[a.key] == Full(env.codec, b)
  {
    PrefixTimed(env, d, [a, b, m], rest);
    UpdateThenOther(env, d, a, b, m);
    RestIgnored(env, d, [a, b, m], rest, a.key);
  }

  lemma OvertakenLosesUpdate(env: ReaderEnv, d: Delivery, a: Sample, m: Sample, b: Sample, rest: seq<Sample>)
    requires ByTime(env, d, [a, m, b] + rest) && Timed([a, m, b] + rest) && Latest([a, m, b] + rest) == m
    requires a.timestamp < b.timestamp < m.timestamp && a.key == b.key != m.key
    ensures var st := QueueAll(env, d, FRESH_READER, [a, m, b] + rest);
      a.key in st.bases && st.bases[a.key] == Full(env.codec, a)
  {
    PrefixTimed(env, d, [a, m, b], rest);
    OtherThenUpdate(env, d, a, m, b);
    RestIgnored(env, d, [a, m, b], rest, a.key);
  }

  lemma OtherBaseOtherView(env: ReaderEnv, d: Delivery, p: seq<Sample>, p': seq<Sample>, k: Key)
    requires k in QueueAll(env, d, FRESH_READER, p).bases && k in QueueAll(env, d, FRESH_READER, p').bases
    requires QueueAll(env, d, FRESH_READER, p).bases[k] != QueueAll(env, d, FRESH_READER, p').bases[k]
    ensures !SameView(env, d, p, p')
  {
  }

  lemma PermutationIsTimed(env: ReaderEnv, d: Delivery, p: seq<Sample>, p': seq<Sample>)
    requires ByTime(env, d, p) && Timed(p) && p != [] && multiset(p') == multiset(p)
    ensures ByTime(env, d, p') && Timed(p') && p' != [] && Latest(p') == Latest(p)
  {
    TimedPermutation(p, p');
    ByTimePermutation(env, d, p, p');
    LatestOfPermutation(p, p');
  }

  lemma TwoOrders(env: ReaderEnv, d: Delivery, p: seq<Sample>, a: Sample, b: Sample, rest: seq<Sample>)
    requires ByTime(env, d, p) && Timed(p) && p != []
    requires a.key == b.key && a.key != Latest(p).key && a.timestamp < b.timestamp < Latest(p).timestamp
    requires multiset([a, b, Latest(p)] + rest) == multiset(p) && multiset([a, Latest(p), b] + rest) == multiset(p)
    ensures !SameView(env, d, [a, b, Latest(p)] + rest, [a, Latest(p), b] + rest)
  {
    var m := Latest(p);
    PermutationIsTimed(env, d, p, [a, b, m] + rest);
    PermutationIsTimed(env, d, p, [a, m, b] + rest);
    InOrderKeepsUpdate(env, d, a, b, m, rest);
    OvertakenLosesUpdate(env, d, a, m, b, rest);
    assert Full(env.codec, a).timestamp != Full(env.codec, b).timestamp;
    OtherBaseOtherView(env, d, [a, b, m] + rest, [a, m, b] + rest, a.key);
  }

  lemma TwiceImpliesDivergence(env: ReaderEnv, d: Delivery, p: seq<Sample>, a: Sample, b: Sample)
    requires ByTime(env, d, p) && Timed(p) && p != []
    requires a in p && b in p && a.key == b.key && a.key != Latest(p).key
    requires a.timestamp < b.timestamp < Latest(p).timestamp
    ensures !Converges(env, d, p)
  {
    LatestIsGreatest(p);
    var rest := PickThree(p, a, b, Latest(p));
    TwoOrders(env, d, p, a, b, rest);
  }

  /** Every arrival order leaves the same view exactly when no key but the latest sample's own has two samples. The
      send time is one per reader, not one per key: a later sample of another key makes the reader discard an update
      that was only overtaken. */
  lemma ConvergesIffOthersPublishOnce(env: ReaderEnv, d: Delivery, p: seq<Sample>)
    requires ByTime(env, d, p) && Timed(p) && p != []
    ensures Converges(env, d, p) <==> OthersPublishOnce(p)
  {
    if OthersPublishOnce(p) {
      forall p', p'' | multiset(p') == multiset(p) && multiset(p'') == multiset(p) ensures SameView(env, d, p', p'') {
        OnceImpliesSameView(env, d, p, p', p'');
      }
    } else {
      var i, j :| 0 <= i < j < |p| && p[i].key == p[j].key && p[i].key != Latest(p).key;
      LatestIsGreatest(p);
      var m :| 0 <= m < |p| && p[m] == Latest(p);
      if p[i].timestamp < p[j].timestamp {
        TwiceImpliesDivergence(env, d, p, p[i], p[j]);
      } else {
        TwiceImpliesDivergence(env, d, p, p[j], p[i]);
      }
    }
  }

  /** On a single key every order ends with the greatest timestamp as base and as last delivered sample. */
  lemma SingleKeyConverges(env: ReaderEnv, d: Delivery, p: seq<Sample>, p': seq<Sample>)
    requires ByTime(env, d, p) && Timed(p) && p != [] && multiset(p') == multiset(p)
    requires forall i :: 0 <= i < |p| ==> p[i].key == p[0].key
    ensures
      var st := QueueAll(env, d, FRESH_READER, p');
      && st.bases == map[p[0].key := Full(env.codec, Latest(p))]
      && st.calls != [] && Last(st.calls) == Full(env.codec, Latest(p))
  {
    PermutationSettles(env, d, p, p');
    var st := QueueAll(env, d, FRESH_READER, p');
    LatestIsGreatest(p);
    var i :| 0 <= i < |p| && p[i] == Latest(p);
    assert KeySet(p) == {p[0].key};
    assert st.bases.Keys == {p[0].key};
  }
}
