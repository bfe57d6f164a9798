/** Readers and writers agree on the value of every key. */
module Agreement {
  import opened Samples
  import opened History
  import opened PublishLog
  import opened KeyOrder
  import opened InitBatch
  import opened Reader

  ghost predicate AgreeOn(k: Key, mine: map<Key, Sample>, theirs: map<Key, Sample>) {
    && (k in mine <==> k in theirs)
    && (k in mine ==> mine[k].value == theirs[k].value)
  }

  /** Every partial update was published with a non-empty update encoding. */
  ghost predicate UpdatesEncoded(l: seq<Sample>) {
    forall i :: 0 <= i < |l| && l[i].event.PartialUpdate? ==> l[i].encoded != []
  }

  function Incoming(batch: seq<DataSample>): (r: seq<Sample>)
    ensures |r| == |batch|
  {
    if batch == [] then [] else Incoming(Front(batch)) + [FromWire(Last(batch))]
  }

  /** None of the samples loses to the reader's discard policy. */
  ghost predicate Undisturbed(env: ReaderEnv, d: Delivery, lastSendTime: int, src: seq<Sample>) {
    forall i :: 0 <= i < |src| ==> !Discards(env, d, lastSendTime, src[i])
  }

  // ----- replaying a batch -----

  function Replay(
    env: ReaderEnv, d: Delivery, bases: map<Key, Sample>, lastSendTime: int, src: seq<Sample>): BatchReceipt
    requires AllSound(src)
  {
    ReceiveAll(env, d, bases, lastSendTime, Incoming(Deliver(env.codec, src)))
  }

  function WireOf(c: Codec, prefix: seq<Sample>, s: Sample): DataSample
    requires Sound(s)
  {
    if s.event.PartialUpdate? && s.key !in KeySet(prefix) then ToFullWire(c, s) else ToWire(c, s)
  }

  lemma ReplaySnoc(env: ReaderEnv, d: Delivery, bases: map<Key, Sample>, lastSendTime: int, src: seq<Sample>)
    requires src != [] && AllSound(src)
    ensures AllSound(Front(src))
    ensures
      var before := Replay(env, d, bases, lastSendTime, Front(src));
      var r := Receive(env, d, before.bases, lastSendTime, FromWire(WireOf(env.codec, Front(src), Last(src))));
      Replay(env, d, bases, lastSendTime, src) ==
        BatchReceipt(r.bases, before.valid + if r.sample.Some? then [r.sample.value] else [])
  {
    var batch := Deliver(env.codec, src);
    assert Front(batch) == Deliver(env.codec, Front(src));
    assert Last(batch) == WireOf(env.codec, Front(src), Last(src));
    assert Front(Incoming(batch)) == Incoming(Front(batch));
  }

  /** `mine` holds for key `k` what the newest of `p` says, or what `before` held when `p` is empty. */
  ghost predicate Reflects(mine: map<Key, Sample>, before: map<Key, Sample>, p: seq<Sample>, k: Key) {
    if p == [] then (k in mine <==> k in before) && (k in mine ==> mine[k] == before[k])
    else if Last(p).event.Remove? then k !in mine
    else k in mine && mine[k].value == Last(p).value
  }

  /** The delivered form of `s`: same identity, same time, same resolved value. */
  predicate Carries(got: Sample, s: Sample) {
    && got.id == s.id && got.key == s.key && got.timestamp == s.timestamp
    && (got.event.Remove? <==> s.event.Remove?)
    && (!s.event.Remove? ==> got.value == s.value)
  }

  /** One replayed sample, given what the earlier ones left for its key. */
  lemma ReplayOne(
    env: ReaderEnv, d: Delivery, lastSendTime: int, mine: map<Key, Sample>, prefix: seq<Sample>, s: Sample)
    requires env.codec.Lawful() && Sound(s)
    requires s.event.PartialUpdate? ==> s.encoded != []
    requires Wanted(env, d, s.key) && !Discards(env, d, lastSendTime, s)
    requires s.key in KeySet(prefix) && s.event.PartialUpdate? ==>
      s.key in mine && mine[s.key].value.Some? &&
      s.value == Some(env.codec.apply(s.tag, mine[s.key].value.value, s.encoded))
    ensures
      var r := Receive(env, d, mine, lastSendTime, FromWire(WireOf(env.codec, prefix, s)));
      r.sample.Some? && Carries(r.sample.value, s) && r.bases == Rebase(mine, r.sample.value)
  {
    if !s.event.Remove? {
      assert env.codec.decode(env.codec.encode(s.value.value)) == s.value.value;
    }
  }

  /** One more sample of the key. */
  lemma ReplayOneReflects(
    env: ReaderEnv, d: Delivery, bases: map<Key, Sample>, lastSendTime: int, mine: map<Key, Sample>,
    prefix: seq<Sample>,
    s: Sample)
    requires env.codec.Lawful() && Sound(s) && (s.event.PartialUpdate? ==> s.encoded != [])
    requires Wanted(env, d, s.key) && !Discards(env, d, lastSendTime, s)
    requires Settles(env.codec, Project(prefix, s.key) + [s])
    requires s.event.PartialUpdate? ==> Reflects(mine, bases, Project(prefix, s.key), s.key)
    ensures Reflects(Receive(env, d, mine, lastSendTime, FromWire(WireOf(env.codec, prefix, s))).bases, bases,
                     Project(prefix, s.key) + [s], s.key)
  {
    ProjectEmptyIffNoKey(prefix, s.key);
    var p := Project(prefix, s.key);
    assert Front(p + [s]) == p && Last(p + [s]) == s;
    ReplayOne(env, d, lastSendTime, mine, prefix, s);
  }

  lemma ReceiveLeavesOthers(
    env: ReaderEnv, d: Delivery, lastSendTime: int, mine: map<Key, Sample>, s: Sample, k: Key)
    requires s.key != k || !Wanted(env, d, k)
    ensures Reflects(Receive(env, d, mine, lastSendTime, s).bases, mine, [], k)
  {
  }

  /** Replaying a batch that settles on key `k` leaves the reader with the newest sample of `k`. */
  lemma {:induction false} ReplayReflects(
    env: ReaderEnv, d: Delivery, bases: map<Key, Sample>, lastSendTime: int, src: seq<Sample>, k: Key)
    requires env.codec.Lawful() && AllSound(src) && UpdatesEncoded(src)
    requires Undisturbed(env, d, lastSendTime, src) && Wanted(env, d, k)
    requires Settles(env.codec, Project(src, k))
    ensures Reflects(Replay(env, d, bases, lastSendTime, src).bases, bases, Project(src, k), k)
  {
    if src != [] {
      ReplaySnoc(env, d, bases, lastSendTime, src);
      var s, before := Last(src), Replay(env, d, bases, lastSendTime, Front(src)).bases;
      if s.key == k {
        assert Project(src, k) == Project(Front(src), k) + [s];
        if s.event.PartialUpdate? {
          SettlesFront(env.codec, Project(Front(src), k), s);
          ReplayReflects(env, d, bases, lastSendTime, Front(src), k);
        }
        ReplayOneReflects(env, d, bases, lastSendTime, before, Front(src), s);
      } else {
        assert Project(src, k) == Project(Front(src), k);
        ReplayReflects(env, d, bases, lastSendTime, Front(src), k);
        ReceiveLeavesOthers(env, d, lastSendTime, before, FromWire(WireOf(env.codec, Front(src), s)), k);
      }
    }
  }

  /** A key the reader does not want keeps the base it had. */
  lemma {:induction false} ReplayIgnores(
    env: ReaderEnv, d: Delivery, bases: map<Key, Sample>, lastSendTime: int, src: seq<Sample>, k: Key)
    requires AllSound(src) && !Wanted(env, d, k)
    ensures Reflects(Replay(env, d, bases, lastSendTime, src).bases, bases, [], k)
  {
    if src != [] {
      ReplaySnoc(env, d, bases, lastSendTime, src);
      ReplayIgnores(env, d, bases, lastSendTime, Front(src), k);
      var before := Replay(env, d, bases, lastSendTime, Front(src)).bases;
      ReceiveLeavesOthers(env, d, lastSendTime, before, FromWire(WireOf(env.codec, Front(src), Last(src))), k);
    }
  }

  lemma ChainedFront(c: Codec, src: seq<Sample>, k: Key)
    requires src != [] && Chained(c, Project(src, k))
    ensures Chained(c, Project(Front(src), k))
    ensures Last(src).key == k && Project(Front(src), k) != [] ==> Linked(c, Last(Project(Front(src), k)), Last(src))
  {
    var p, f := Project(src, k), Project(Front(src), k);
    if Last(src).key == k {
      assert f == Front(p);
      if f != [] {
        assert Linked(c, p[|p| - 2], p[|p| - 1]);
      }
    } else {
      assert f == p;
    }
  }

  function Matching(env: ReaderEnv, d: Delivery, src: seq<Sample>): seq<Sample> {
    if src == [] then []
    else Matching(env, d, Front(src)) + if Wanted(env, d, Last(src).key) then [Last(src)] else []
  }

  ghost predicate AllCarry(got: seq<Sample>, src: seq<Sample>) {
    |got| == |src| && forall i :: 0 <= i < |src| ==> Carries(got[i], src[i])
  }

  /** Replaying a batch delivers every sample the reader wants, each with the value the writer resolved for it. */
  lemma {:induction false} ReplayDelivers(
    env: ReaderEnv, d: Delivery, bases: map<Key, Sample>, lastSendTime: int, src: seq<Sample>)
    requires env.codec.Lawful() && AllSound(src) && UpdatesEncoded(src)
    requires Undisturbed(env, d, lastSendTime, src)
    requires forall k :: Chained(env.codec, Project(src, k))
    ensures AllCarry(Replay(env, d, bases, lastSendTime, src).valid, Matching(env, d, src))
  {
    if src != [] {
      ReplaySnoc(env, d, bases, lastSendTime, src);
      var s, before := Last(src), Replay(env, d, bases, lastSendTime, Front(src)).bases;
      forall k ensures Chained(env.codec, Project(Front(src), k)) {
        ChainedFront(env.codec, src, k);
      }
      ReplayDelivers(env, d, bases, lastSendTime, Front(src));
      if Wanted(env, d, s.key) {
        ChainedFront(env.codec, src, s.key);
        ChainedSettles(env.codec, Project(Front(src), s.key));
        ReplayReflects(env, d, bases, lastSendTime, Front(src), s.key);
        ProjectEmptyIffNoKey(Front(src), s.key);
        ReplayOne(env, d, lastSendTime, before, Front(src), s);
      }
    }
  }

  // ----- the writer's batch -----

  /** getSamples reaps the writer's history first, unless the reader keeps none. */
  function HistoryFor(wcfg: Config, st: WriterState, q: Query): seq<Sample> {
    if q.config.KeepsNoHistory() then st.history else Reap(wcfg, st.history, q.now)
  }

  function BatchSamples(wcfg: Config, st: WriterState, q: Query): seq<Sample> {
    Chosen(st.log, HistoryFor(wcfg, st, q), q)
  }

  lemma HistoryForDrawn(c: Codec, wcfg: Config, st: WriterState, q: Query)
    requires WriterInv(c, wcfg, st)
    ensures Drawn(HistoryFor(wcfg, st, q), st.log)
  {
    ReapDrawn(wcfg, st.history, st.log, q.now);
  }

  lemma SuffixChained(c: Codec, t: seq<Sample>, p: seq<Sample>)
    requires Chained(c, p) && IsSuffix(t, p)
    ensures Chained(c, t)
  {
    var start := |p| - |t|;
    forall i | 0 < i < |t| ensures Linked(c, t[i - 1], t[i]) {
      assert Linked(c, p[start + i - 1], p[start + i]);
    }
  }

  /** Whatever the sample filter, the batch is made of published samples, which all have a value. */
  lemma BatchSound(c: Codec, wcfg: Config, st: WriterState, q: Query)
    requires WriterInv(c, wcfg, st)
    ensures AllSound(BatchSamples(wcfg, st, q))
    ensures UpdatesEncoded(st.log) ==> UpdatesEncoded(BatchSamples(wcfg, st, q))
  {
    var src := BatchSamples(wcfg, st, q);
    forall i | 0 <= i < |src| ensures Sound(src[i]) && src[i] in st.log {
      ChosenInLog(st.log, HistoryFor(wcfg, st, q), q, src[i]);
      ProjectMembers(st.log, src[i].key, src[i]);
      assert KeyWellFormed(c, st.log, src[i].key);
    }
  }

  /** Whatever the query, every sample of the batch is of a key the reader asked for and passes its filter, and a key
      whose current sample the reader asked for, accepts and has not received is represented. */
  lemma BatchPasses(c: Codec, wcfg: Config, st: WriterState, q: Query)
    requires WriterInv(c, wcfg, st)
    ensures AllAskedFor(BatchSamples(wcfg, st, q), q)
    ensures forall k :: NeedsBase(st.log, q, k) ==> k in KeySet(BatchSamples(wcfg, st, q))
  {
    var h, src := HistoryFor(wcfg, st, q), BatchSamples(wcfg, st, q);
    HistoryForDrawn(c, wcfg, st, q);
    forall i | 0 <= i < |src| ensures AskedFor(q, src[i]) {
      ChosenPasses(c, st.log, h, q, src[i]);
    }
    forall k | NeedsBase(st.log, q, k) ensures k in KeySet(src) {
      ChosenRepresents(c, st.log, h, q, k);
    }
  }

  /** The initialization batch of a writer, as samples on the wire. */
  function Batch(c: Codec, wcfg: Config, st: WriterState, q: Query): seq<DataSample>
    requires AllSound(BatchSamples(wcfg, st, q))
  {
    Deliver(c, BatchSamples(wcfg, st, q))
  }

  /** The reader once it has loaded the writer's batch. */
  function Attached(env: ReaderEnv, d: Delivery, r: ReaderState, wcfg: Config, st: WriterState, q: Query): ReaderState
    requires AllSound(BatchSamples(wcfg, st, q))
  {
    Init(env, d, r, Incoming(Batch(env.codec, wcfg, st, q)))
  }

  /** No sample filter, no discarded sample, a decoder that inverts the encoder, and no empty update encoding. */
  ghost predicate Attachable(
    env: ReaderEnv, d: Delivery, r: ReaderState, wcfg: Config, st: WriterState, q: Query)
  {
    && env.codec.Lawful()
    && UpdatesEncoded(st.log)
    && q.Unfiltered()
    && Undisturbed(env, d, r.lastSendTime, BatchSamples(wcfg, st, q))
  }

  lemma BatchIsTail(c: Codec, wcfg: Config, st: WriterState, q: Query, k: Key)
    requires WriterInv(c, wcfg, st) && q.Unfiltered() && Gapless(wcfg, st.log, st.history, k)
    ensures IsSuffix(Project(BatchSamples(wcfg, st, q), k), Project(st.log, k))
    ensures Chained(c, Project(BatchSamples(wcfg, st, q), k))
  {
    HistoryForDrawn(c, wcfg, st, q);
    GaplessAfterReap(wcfg, st.log, st.history, q.now, k);
    ChosenIsTail(c, st.log, HistoryFor(wcfg, st, q), q, k);
    assert KeyWellFormed(c, st.log, k);
    SuffixChained(c, Project(BatchSamples(wcfg, st, q), k), Project(st.log, k));
  }

  /** Samples that form a chain per key are all given the value the writer resolved. */
  lemma TailsCarry(env: ReaderEnv, d: Delivery, r: ReaderState, wcfg: Config, st: WriterState, q: Query)
    requires WriterInv(env.codec, wcfg, st) && Attachable(env, d, r, wcfg, st, q)
    requires forall k :: Chained(env.codec, Project(BatchSamples(wcfg, st, q), k))
    ensures AllSound(BatchSamples(wcfg, st, q))
    ensures AllCarry(Replay(env, d, r.bases, r.lastSendTime, BatchSamples(wcfg, st, q)).valid,
                     Matching(env, d, BatchSamples(wcfg, st, q)))
  {
    BatchSound(env.codec, wcfg, st, q);
    ReplayDelivers(env, d, r.bases, r.lastSendTime, BatchSamples(wcfg, st, q));
  }

  /** The batch preserves meaning: after any run in which no key's own publish times decrease, each key's samples are
      its newest published ones, with no gap, and the reader gives every one of them the value the writer resolved. */
  lemma BatchPreservesMeaning(
    env: ReaderEnv, d: Delivery, r: ReaderState, wcfg: Config, acts: seq<Action>, q: Query)
    requires AdmissibleRun(env.codec, wcfg, acts) && Attachable(env, d, r, wcfg, Run(env.codec, wcfg, acts), q)
    requires wcfg.HasLifetime() ==> forall k :: Monotone(Project(Run(env.codec, wcfg, acts).log, k))
    ensures
      var st := Run(env.codec, wcfg, acts);
      var src := BatchSamples(wcfg, st, q);
      && AllSound(src)
      && (forall k :: IsSuffix(Project(src, k), Project(st.log, k)))
      && AllCarry(Replay(env, d, r.bases, r.lastSendTime, src).valid, Matching(env, d, src))
  {
    var st := Run(env.codec, wcfg, acts);
    RunKeepsInv(env.codec, wcfg, acts);
    forall k
      ensures IsSuffix(Project(BatchSamples(wcfg, st, q), k), Project(st.log, k))
      ensures Chained(env.codec, Project(BatchSamples(wcfg, st, q), k))
    {
      RunIsGapless(env.codec, wcfg, acts, k);
      BatchIsTail(env.codec, wcfg, st, q, k);
    }
    TailsCarry(env, d, r, wcfg, st, q);
  }

  // ----- attaching -----

  lemma LiveBatchSettles(c: Codec, wcfg: Config, st: WriterState, q: Query, k: Key)
    requires WriterInv(c, wcfg, st) && IsLive(Project(st.log, k)) && Steady(wcfg, st.log, st.history, k)
    requires var t := Project(BatchSamples(wcfg, st, q), k);
      t != [] && IsSuffix(t, Project(Reap(wcfg, st.history, q.now), k))
    ensures var t := Project(BatchSamples(wcfg, st, q), k); Settles(c, t) && Last(t) == Last(Project(st.log, k))
  {
    var h, p := Reap(wcfg, st.history, q.now), Project(st.log, k);
    ReapDrawn(wcfg, st.history, st.log, q.now);
    ProjectIds(st.log, k);
    ProjectIds(h, k);
    assert KeyWellFormed(c, st.log, k);
    SteadyLiveReaped(wcfg, p, st.history, q.now);
    KeptIsClosed(st.log, h, k);
    LiveTailSettles(c, p, Project(h, k), Project(BatchSamples(wcfg, st, q), k));
  }

  lemma GoneBatchSettles(c: Codec, wcfg: Config, st: WriterState, q: Query, k: Key)
    requires WriterInv(c, wcfg, st) && !IsLive(Project(st.log, k)) && Steady(wcfg, st.log, st.history, k)
    requires var t := Project(BatchSamples(wcfg, st, q), k);
      t != [] && IsSuffix(t, Project(Reap(wcfg, st.history, q.now), k))
    ensures var t := Project(BatchSamples(wcfg, st, q), k); Settles(c, t) && Last(t).event.Remove?
  {
    ProjectReap(wcfg, st.history, q.now, k);
    ProjectIds(st.history, k);
    SteadyGoneReaped(wcfg, Project(st.history, k), q.now);
  }

  /** What a batch holds of a scanned key that is steady: it ends with the current sample, or with a remove for a key
      that has none, and it settles. */
  lemma SteadyBatchSettles(c: Codec, wcfg: Config, st: WriterState, q: Query, k: Key)
    requires WriterInv(c, wcfg, st) && q.Unfiltered() && Steady(wcfg, st.log, st.history, k)
    requires k in KeySet(Scanned(HistoryFor(wcfg, st, q), q))
    ensures var t := Project(BatchSamples(wcfg, st, q), k);
      && t != [] && Settles(c, t)
      && (if k in Current(st.log) then Last(t) == Current(st.log)[k] else Last(t).event.Remove?)
  {
    HistoryForDrawn(c, wcfg, st, q);
    ChosenOfKey(c, st.log, HistoryFor(wcfg, st, q), q, k);
    CurrentIsNewest(st.log, k);
    if IsLive(Project(st.log, k)) {
      LiveBatchSettles(c, wcfg, st, q, k);
    } else {
      GoneBatchSettles(c, wcfg, st, q, k);
    }
  }

  /** What attaching leaves for one key, if what the batch holds of it settles. */
  lemma AttachedSettled(
    env: ReaderEnv, d: Delivery, r: ReaderState, wcfg: Config, st: WriterState, q: Query, k: Key)
    requires WriterInv(env.codec, wcfg, st) && Attachable(env, d, r, wcfg, st, q) && Wanted(env, d, k)
    requires Settles(env.codec, Project(BatchSamples(wcfg, st, q), k))
    ensures AllSound(BatchSamples(wcfg, st, q))
    ensures Reflects(Attached(env, d, r, wcfg, st, q).bases, r.bases, Project(BatchSamples(wcfg, st, q), k), k)
  {
    BatchSound(env.codec, wcfg, st, q);
    ReplayReflects(env, d, r.bases, r.lastSendTime, BatchSamples(wcfg, st, q), k);
  }

  lemma AttachedScanned(
    env: ReaderEnv, d: Delivery, r: ReaderState, wcfg: Config, st: WriterState, q: Query, k: Key)
    requires WriterInv(env.codec, wcfg, st) && Attachable(env, d, r, wcfg, st, q) && Wanted(env, d, k)
    requires Steady(wcfg, st.log, st.history, k) && k in KeySet(Scanned(HistoryFor(wcfg, st, q), q))
    ensures AllSound(BatchSamples(wcfg, st, q))
    ensures AgreeOn(k, Attached(env, d, r, wcfg, st, q).bases, Current(st.log))
  {
    SteadyBatchSettles(env.codec, wcfg, st, q, k);
    AttachedSettled(env, d, r, wcfg, st, q, k);
    CurrentIsNewest(st.log, k);
  }

  /** Of a key that is not scanned the batch holds the current sample if the reader needs it, else nothing. */
  lemma AttachedUnscanned(
    env: ReaderEnv, d: Delivery, r: ReaderState, wcfg: Config, st: WriterState, q: Query, k: Key)
    requires WriterInv(env.codec, wcfg, st) && Attachable(env, d, r, wcfg, st, q) && Wanted(env, d, k)
    requires k !in KeySet(Scanned(HistoryFor(wcfg, st, q), q))
    ensures AllSound(BatchSamples(wcfg, st, q))
    ensures Reflects(Attached(env, d, r, wcfg, st, q).bases, r.bases,
      if Needs(st.log, q, k) then [Current(st.log)[k]] else [], k)
  {
    HistoryForDrawn(env.codec, wcfg, st, q);
    ChosenOfKey(env.codec, st.log, HistoryFor(wcfg, st, q), q, k);
    AttachedSettled(env, d, r, wcfg, st, q, k);
  }

  /** What attaching leaves for one key that is steady: the writer's value if the batch speaks of the key, else what the
      reader had. */
  lemma AttachedReflects(
    env: ReaderEnv, d: Delivery, r: ReaderState, wcfg: Config, st: WriterState, q: Query, k: Key)
    requires WriterInv(env.codec, wcfg, st) && Attachable(env, d, r, wcfg, st, q) && Wanted(env, d, k)
    requires Steady(wcfg, st.log, st.history, k)
    ensures AllSound(BatchSamples(wcfg, st, q))
    ensures k in KeySet(Scanned(HistoryFor(wcfg, st, q), q)) || Needs(st.log, q, k) ==>
      AgreeOn(k, Attached(env, d, r, wcfg, st, q).bases, Current(st.log))
    ensures k !in KeySet(Scanned(HistoryFor(wcfg, st, q), q)) && !Needs(st.log, q, k) ==>
      Reflects(Attached(env, d, r, wcfg, st, q).bases, r.bases, [], k)
  {
    if k in KeySet(Scanned(HistoryFor(wcfg, st, q), q)) {
      AttachedScanned(env, d, r, wcfg, st, q, k);
    } else {
      AttachedUnscanned(env, d, r, wcfg, st, q, k);
      CurrentIsNewest(st.log, k);
    }
  }

  /** Attaching gives the reader no base for a key it did not ask for or does not want. */
  lemma AttachedIgnores(
    env: ReaderEnv, d: Delivery, r: ReaderState, wcfg: Config, st: WriterState, q: Query, k: Key)
    requires WriterInv(env.codec, wcfg, st) && Attachable(env, d, r, wcfg, st, q)
    requires !q.WantsKey(k) || !Wanted(env, d, k)
    ensures AllSound(BatchSamples(wcfg, st, q))
    ensures Reflects(Attached(env, d, r, wcfg, st, q).bases, r.bases, [], k)
  {
    BatchSound(env.codec, wcfg, st, q);
    HistoryForDrawn(env.codec, wcfg, st, q);
    ChosenOfKey(env.codec, st.log, HistoryFor(wcfg, st, q), q, k);
    if Wanted(env, d, k) {
      ReplayReflects(env, d, r.bases, r.lastSendTime, BatchSamples(wcfg, st, q), k);
    } else {
      ReplayIgnores(env, d, r.bases, r.lastSendTime, BatchSamples(wcfg, st, q), k);
    }
  }

  /** A fresh reader that loads the whole batch of a writer in which the key is steady agrees with it on the key. */
  lemma SteadyJoinerAgrees(
    env: ReaderEnv, d: Delivery, r: ReaderState, wcfg: Config, st: WriterState, q: Query, k: Key)
    requires WriterInv(env.codec, wcfg, st) && Attachable(env, d, r, wcfg, st, q)
    requires k !in r.bases && q.lastId <= 0 && q.WantsKey(k) && Wanted(env, d, k)
    requires Steady(wcfg, st.log, st.history, k)
    ensures AllSound(BatchSamples(wcfg, st, q))
    ensures AgreeOn(k, Attached(env, d, r, wcfg, st, q).bases, Current(st.log))
  {
    AttachedReflects(env, d, r, wcfg, st, q, k);
    if k in Current(st.log) {
      CurrentIsNewest(st.log, k);
      ProjectMembers(st.log, k, Current(st.log)[k]);
    }
  }

  /** A late joiner: whatever the writer published, whatever the two configurations are, and whatever the clock did on
      other keys, a reader without bases that loads the whole batch holds the writer's current value for every key it
      asked for, and no other base. With a lifetime the key's own samples must be in order from its last full value or
      remove on. */
  lemma LateJoinerAgrees(
    env: ReaderEnv, d: Delivery, r: ReaderState, wcfg: Config, acts: seq<Action>, q: Query, k: Key)
    requires AdmissibleRun(env.codec, wcfg, acts)
    requires Attachable(env, d, r, wcfg, Run(env.codec, wcfg, acts), q)
    requires r.bases == map[] && q.lastId <= 0
    requires wcfg.HasLifetime() && q.WantsKey(k) && Wanted(env, d, k) ==>
      KeyInOrder(Project(Run(env.codec, wcfg, acts).log, k))
    ensures AllSound(BatchSamples(wcfg, Run(env.codec, wcfg, acts), q))
    ensures q.WantsKey(k) && Wanted(env, d, k) ==>
      AgreeOn(k, Attached(env, d, r, wcfg, Run(env.codec, wcfg, acts), q).bases,
        Current(Run(env.codec, wcfg, acts).log))
    ensures !q.WantsKey(k) || !Wanted(env, d, k) ==>
      k !in Attached(env, d, r, wcfg, Run(env.codec, wcfg, acts), q).bases
  {
    RunKeepsInv(env.codec, wcfg, acts);
    if q.WantsKey(k) && Wanted(env, d, k) {
      RunIsSteady(env.codec, wcfg, acts, k);
      SteadyJoinerAgrees(env, d, r, wcfg, Run(env.codec, wcfg, acts), q, k);
    } else {
      AttachedIgnores(env, d, r, wcfg, Run(env.codec, wcfg, acts), q, k);
    }
  }

  // ----- resuming -----

  /** The first `n` samples of the log are exactly those the reader has received. */
  ghost predicate ReceivedUpTo(l: seq<Sample>, n: nat, lastId: int) {
    && n <= |l|
    && (forall i :: 0 <= i < n ==> l[i].id <= lastId)
    && (forall i :: n <= i < |l| ==> l[i].id > lastId)
  }

  lemma OldNewestWasReceived(l: seq<Sample>, n: nat, lastId: int, k: Key)
    requires ReceivedUpTo(l, n, lastId)
    requires k in Current(l) && Current(l)[k].id <= lastId
    ensures AgreeOn(k, Current(l[..n]), Current(l))
  {
    var before, after := l[..n], l[n..];
    CurrentIsNewest(l, k);
    CurrentIsNewest(before, k);
    assert l == before + after;
    ProjectConcat(before, after, k);
    var later := Project(after, k);
    if later != [] {
      ProjectMembers(after, k, Last(later));
    }
    assert later == [];
    assert Project(l, k) == Project(before, k);
  }

  /** The writer as a reader that has received everything up to `lastId` sees it. */
  function Since(st: WriterState, lastId: int): WriterState {
    WriterState(st.log, Newer(st.history, lastId))
  }

  lemma SinceKeepsInv(c: Codec, wcfg: Config, st: WriterState, lastId: int)
    requires WriterInv(c, wcfg, st)
    ensures WriterInv(c, wcfg, Since(st, lastId))
  {
    NewerIsSuffix(st.history, lastId);
  }

  lemma SinceSameScan(c: Codec, wcfg: Config, st: WriterState, q: Query)
    requires WriterInv(c, wcfg, st)
    ensures Scanned(HistoryFor(wcfg, Since(st, q.lastId), q), q) == Scanned(HistoryFor(wcfg, st, q), q)
    ensures BatchSamples(wcfg, Since(st, q.lastId), q) == BatchSamples(wcfg, st, q)
  {
    ScanNewer(wcfg, st.history, q, 0);
  }

  /** A reader that agreed with the writer up to `lastId` and attaches again holds the writer's value for every key
      still live, whatever history was trimmed meanwhile, if the key is steady in what the history holds since. A key
      removed meanwhile is forgotten exactly when the reader had no value for it, or a sample of it is still in the
      history with nothing after it that stops the scan. */
  lemma ResumedReaderAgrees(
    env: ReaderEnv, d: Delivery, r: ReaderState, wcfg: Config, st: WriterState, n: nat, q: Query, k: Key)
    requires WriterInv(env.codec, wcfg, st) && Attachable(env, d, r, wcfg, st, q)
    requires Steady(wcfg, st.log, Newer(st.history, q.lastId), k)
    requires ReceivedUpTo(st.log, n, q.lastId)
    requires q.WantsKey(k) && Wanted(env, d, k)
    requires AgreeOn(k, r.bases, Current(st.log[..n]))
    ensures AllSound(BatchSamples(wcfg, st, q))
    ensures k in Current(st.log) ==> AgreeOn(k, Attached(env, d, r, wcfg, st, q).bases, Current(st.log))
    ensures k !in Current(st.log) ==>
      (AgreeOn(k, Attached(env, d, r, wcfg, st, q).bases, Current(st.log)) <==>
       k !in r.bases || KeyInReach(HistoryFor(wcfg, st, q), q, k))
  {
    SinceKeepsInv(env.codec, wcfg, st, q.lastId);
    SinceSameScan(env.codec, wcfg, st, q);
    AttachedReflects(env, d, r, wcfg, Since(st, q.lastId), q, k);
    ScannedIffInReach(HistoryFor(wcfg, st, q), q, k);
    if k in Current(st.log) && Current(st.log)[k].id <= q.lastId {
      OldNewestWasReceived(st.log, n, q.lastId, k);
    }
  }

  // ----- live samples -----

  datatype System = System(writer: WriterState, reader: ReaderState)

  /** One writer action, and the circumstances in which its sample, if any, reaches the reader. */
  datatype Tick = Tick(action: Action, delivery: Delivery)

  function Published(c: Codec, st: WriterState, a: Action): (p: Option<Sample>)
    ensures p.Some? && !p.value.event.Remove? ==> p.value.value.Some?
  {
    if a.ReapAt? then None
    else
      match ResolveDraft(c, Current(st.log), a.draft)
      case None => None
      case Some(s) => Some(s.(id := a.id, timestamp := a.now))
  }

  lemma PublishedIsSound(c: Codec, cfg: Config, st: WriterState, a: Action)
    requires WriterInv(c, cfg, st) && Admissible(st, a) && Published(c, st, a).Some?
    ensures Sound(Published(c, st, a).value)
    ensures Step(c, cfg, st, a).log == st.log + [Published(c, st, a).value]
    ensures var s := Published(c, st, a).value; s.event.PartialUpdate? ==>
      s.key in Current(st.log) && Linked(c, Current(st.log)[s.key], s) && s.encoded == a.draft.encoded
  {
    ResolvedIsLinked(c, st.log, a.draft);
  }

  /** The writer sends a published sample to the readers subscribed to its key, as published. */
  function Advance(env: ReaderEnv, wcfg: Config, q: Query, sys: System, tick: Tick): System {
    var st := Step(env.codec, wcfg, sys.writer, tick.action);
    var p := Published(env.codec, sys.writer, tick.action);
    if p.None? || !q.WantsKey(p.value.key) then System(st, sys.reader)
    else System(st, Queue(env, tick.delivery, sys.reader, FromWire(ToWire(env.codec, p.value))))
  }

  function AdvanceAll(env: ReaderEnv, wcfg: Config, q: Query, sys: System, ticks: seq<Tick>): System {
    if ticks == [] then sys else Advance(env, wcfg, q, AdvanceAll(env, wcfg, q, sys, Front(ticks)), Last(ticks))
  }

  /** The action is one the writer's API allows, and the sample it produces is not discarded and not empty. */
  ghost predicate Smooth(env: ReaderEnv, checkKey: bool, sys: System, tick: Tick) {
    && Admissible(sys.writer, tick.action)
    && tick.delivery.checkKey == checkKey
    && (tick.action.Publish? && tick.action.draft.event.PartialUpdate? ==> tick.action.draft.encoded != [])
    && (Published(env.codec, sys.writer, tick.action).Some? ==>
          !Discards(env, tick.delivery, sys.reader.lastSendTime, Published(env.codec, sys.writer, tick.action).value))
  }

  ghost predicate SmoothRun(env: ReaderEnv, wcfg: Config, q: Query, checkKey: bool, sys: System, ticks: seq<Tick>) {
    forall i :: 0 <= i < |ticks| ==> Smooth(env, checkKey, AdvanceAll(env, wcfg, q, sys, ticks[..i]), ticks[i])
  }

  predicate Subscribed(env: ReaderEnv, q: Query, checkKey: bool, k: Key) {
    q.WantsKey(k) && (checkKey ==> env.matchKey(k))
  }

  /** The reader holds the writer's value for every subscribed key that has one. */
  ghost predicate LiveAgreement(env: ReaderEnv, q: Query, checkKey: bool, sys: System) {
    forall k :: Subscribed(env, q, checkKey, k) && k in Current(sys.writer.log) ==>
      AgreeOn(k, sys.reader.bases, Current(sys.writer.log))
  }

  /** The reader holds the writer's value, or none, for every subscribed key. */
  ghost predicate FullAgreement(env: ReaderEnv, q: Query, checkKey: bool, sys: System) {
    forall k :: Subscribed(env, q, checkKey, k) ==> AgreeOn(k, sys.reader.bases, Current(sys.writer.log))
  }

  /** The live sample of a subscribed key is delivered, with the writer's value, when the reader agrees on live keys. */
  lemma LiveSampleDelivered(env: ReaderEnv, wcfg: Config, q: Query, checkKey: bool, sys: System, tick: Tick)
    requires env.codec.Lawful() && WriterInv(env.codec, wcfg, sys.writer)
    requires Smooth(env, checkKey, sys, tick) && LiveAgreement(env, q, checkKey, sys)
    requires Published(env.codec, sys.writer, tick.action).Some?
    requires Subscribed(env, q, checkKey, Published(env.codec, sys.writer, tick.action).value.key)
    ensures
      var s := Published(env.codec, sys.writer, tick.action).value;
      var r := Advance(env, wcfg, q, sys, tick).reader;
      && r.calls == sys.reader.calls + [Last(r.calls)]
      && Carries(Last(r.calls), s)
      && r.bases == Rebase(sys.reader.bases, Last(r.calls))
  {
    var s := Published(env.codec, sys.writer, tick.action).value;
    PublishedIsSound(env.codec, wcfg, sys.writer, tick.action);
    ReplayOne(env, tick.delivery, sys.reader.lastSendTime, sys.reader.bases, [s], s);
    assert [s][0].key in KeySet([s]);
  }

  lemma UnsubscribedSampleIgnored(env: ReaderEnv, wcfg: Config, q: Query, checkKey: bool, sys: System, tick: Tick)
    requires Smooth(env, checkKey, sys, tick)
    requires Published(env.codec, sys.writer, tick.action).Some? ==>
      !Subscribed(env, q, checkKey, Published(env.codec, sys.writer, tick.action).value.key)
    ensures Advance(env, wcfg, q, sys, tick).reader == sys.reader
  {
  }

  lemma RebaseAgrees(k: Key, mine: map<Key, Sample>, theirs: map<Key, Sample>, got: Sample, s: Sample)
    requires Carries(got, s) && (k == s.key || AgreeOn(k, mine, theirs))
    ensures AgreeOn(k, Rebase(mine, got), Rebase(theirs, s))
  {
  }

  /** One writer action, for one key: agreement is kept, and a sample of the key restores it. */
  lemma AdvanceKeepsKey(env: ReaderEnv, wcfg: Config, q: Query, checkKey: bool, sys: System, tick: Tick, k: Key)
    requires env.codec.Lawful() && WriterInv(env.codec, wcfg, sys.writer)
    requires Smooth(env, checkKey, sys, tick) && LiveAgreement(env, q, checkKey, sys)
    requires Subscribed(env, q, checkKey, k)
    ensures var sys' := Advance(env, wcfg, q, sys, tick);
      (k in Current(sys'.writer.log) || AgreeOn(k, sys.reader.bases, Current(sys.writer.log))) ==>
        AgreeOn(k, sys'.reader.bases, Current(sys'.writer.log))
  {
    var p := Published(env.codec, sys.writer, tick.action);
    if p.None? {
    } else {
      var s, l := p.value, sys.writer.log;
      PublishedIsSound(env.codec, wcfg, sys.writer, tick.action);
      assert Current(l + [s]) == Rebase(Current(l), s) by {
        assert Front(l + [s]) == l;
      }
      if Subscribed(env, q, checkKey, s.key) {
        LiveSampleDelivered(env, wcfg, q, checkKey, sys, tick);
        if k == s.key || AgreeOn(k, sys.reader.bases, Current(l)) {
          RebaseAgrees(k, sys.reader.bases, Current(l), Last(Advance(env, wcfg, q, sys, tick).reader.calls), s);
        }
      } else {
        UnsubscribedSampleIgnored(env, wcfg, q, checkKey, sys, tick);
      }
    }
  }

  /** Agreement survives every writer action. */
  lemma AdvanceKeepsAgreement(env: ReaderEnv, wcfg: Config, q: Query, checkKey: bool, sys: System, tick: Tick)
    requires env.codec.Lawful() && WriterInv(env.codec, wcfg, sys.writer)
    requires Smooth(env, checkKey, sys, tick) && LiveAgreement(env, q, checkKey, sys)
    ensures WriterInv(env.codec, wcfg, Advance(env, wcfg, q, sys, tick).writer)
    ensures LiveAgreement(env, q, checkKey, Advance(env, wcfg, q, sys, tick))
    ensures FullAgreement(env, q, checkKey, sys) ==> FullAgreement(env, q, checkKey, Advance(env, wcfg, q, sys, tick))
  {
    StepKeepsInv(env.codec, wcfg, sys.writer, tick.action);
    var sys' := Advance(env, wcfg, q, sys, tick);
    forall k | Subscribed(env, q, checkKey, k)
      ensures (k in Current(sys'.writer.log) || AgreeOn(k, sys.reader.bases, Current(sys.writer.log))) ==>
        AgreeOn(k, sys'.reader.bases, Current(sys'.writer.log))
    {
      AdvanceKeepsKey(env, wcfg, q, checkKey, sys, tick, k);
    }
  }

  lemma SmoothFront(env: ReaderEnv, wcfg: Config, q: Query, checkKey: bool, sys: System, ticks: seq<Tick>)
    requires ticks != [] && SmoothRun(env, wcfg, q, checkKey, sys, ticks)
    ensures SmoothRun(env, wcfg, q, checkKey, sys, Front(ticks))
    ensures Smooth(env, checkKey, AdvanceAll(env, wcfg, q, sys, Front(ticks)), Last(ticks))
  {
    forall i | 0 <= i < |Front(ticks)|
      ensures Smooth(env, checkKey, AdvanceAll(env, wcfg, q, sys, Front(ticks)[..i]), Front(ticks)[i])
    {
      assert Front(ticks)[..i] == ticks[..i];
    }
  }

  /** Whatever the writer does next, a reader that receives its samples in order keeps agreeing with it: on every
      subscribed key if it agreed on all of them, on every live key otherwise. */
  lemma {:induction false} RunLongAgreement(
    env: ReaderEnv, wcfg: Config, q: Query, checkKey: bool, sys: System, ticks: seq<Tick>)
    requires env.codec.Lawful() && WriterInv(env.codec, wcfg, sys.writer)
    requires LiveAgreement(env, q, checkKey, sys) && SmoothRun(env, wcfg, q, checkKey, sys, ticks)
    ensures WriterInv(env.codec, wcfg, AdvanceAll(env, wcfg, q, sys, ticks).writer)
    ensures LiveAgreement(env, q, checkKey, AdvanceAll(env, wcfg, q, sys, ticks))
    ensures FullAgreement(env, q, checkKey, sys) ==>
      FullAgreement(env, q, checkKey, AdvanceAll(env, wcfg, q, sys, ticks))
  {
    if ticks != [] {
      SmoothFront(env, wcfg, q, checkKey, sys, ticks);
      RunLongAgreement(env, wcfg, q, checkKey, sys, Front(ticks));
      AdvanceKeepsAgreement(env, wcfg, q, checkKey, AdvanceAll(env, wcfg, q, sys, Front(ticks)), Last(ticks));
    }
  }

  /** The subscribed samples the writer published during a run. */
  function PublishedDuring(
    env: ReaderEnv, wcfg: Config, q: Query, checkKey: bool, sys: System, ticks: seq<Tick>): seq<Sample> {
    if ticks == [] then []
    else
      var p := Published(env.codec, AdvanceAll(env, wcfg, q, sys, Front(ticks)).writer, Last(ticks).action);
      PublishedDuring(env, wcfg, q, checkKey, sys, Front(ticks)) +
      if p.Some? && Subscribed(env, q, checkKey, p.value.key) then [p.value] else []
  }

  /** No live sample is ever lost: the callbacks are exactly the published samples, each with the writer's value. */
  lemma {:induction false} NothingDropped(
    env: ReaderEnv, wcfg: Config, q: Query, checkKey: bool, sys: System, ticks: seq<Tick>)
    requires env.codec.Lawful() && WriterInv(env.codec, wcfg, sys.writer)
    requires LiveAgreement(env, q, checkKey, sys) && SmoothRun(env, wcfg, q, checkKey, sys, ticks)
    ensures |sys.reader.calls| <= |AdvanceAll(env, wcfg, q, sys, ticks).reader.calls|
    ensures AllCarry(AdvanceAll(env, wcfg, q, sys, ticks).reader.calls[|sys.reader.calls|..],
                     PublishedDuring(env, wcfg, q, checkKey, sys, ticks))
  {
    if ticks != [] {
      SmoothFront(env, wcfg, q, checkKey, sys, ticks);
      RunLongAgreement(env, wcfg, q, checkKey, sys, Front(ticks));
      NothingDropped(env, wcfg, q, checkKey, sys, Front(ticks));
      var mid := AdvanceAll(env, wcfg, q, sys, Front(ticks));
      var p := Published(env.codec, mid.writer, Last(ticks).action);
      if p.Some? && Subscribed(env, q, checkKey, p.value.key) {
        LiveSampleDelivered(env, wcfg, q, checkKey, mid, Last(ticks));
      } else {
        UnsubscribedSampleIgnored(env, wcfg, q, checkKey, mid, Last(ticks));
      }
    }
  }

  /** End to end: a late joiner that then receives every later sample agrees with the writer on every subscribed key,
      after any history that left those keys steady, and any continuation. */
  lemma JoinThenFollow(
    env: ReaderEnv, d: Delivery, r: ReaderState, wcfg: Config, acts: seq<Action>, q: Query, ticks: seq<Tick>)
    requires AdmissibleRun(env.codec, wcfg, acts)
    requires Attachable(env, d, r, wcfg, Run(env.codec, wcfg, acts), q)
    requires r.bases == map[] && q.lastId <= 0
    requires
      var st := Run(env.codec, wcfg, acts);
      forall k :: Subscribed(env, q, d.checkKey, k) ==> Steady(wcfg, st.log, st.history, k)
    ensures AllSound(BatchSamples(wcfg, Run(env.codec, wcfg, acts), q))
    ensures
      var st := Run(env.codec, wcfg, acts);
      var joined := System(st, Attached(env, d, r, wcfg, st, q));
      SmoothRun(env, wcfg, q, d.checkKey, joined, ticks) ==>
        FullAgreement(env, q, d.checkKey, AdvanceAll(env, wcfg, q, joined, ticks))
  {
    var st := Run(env.codec, wcfg, acts);
    RunKeepsInv(env.codec, wcfg, acts);
    BatchSound(env.codec, wcfg, st, q);
    var joined := System(st, Attached(env, d, r, wcfg, st, q));
    forall k | Subscribed(env, q, d.checkKey, k) ensures AgreeOn(k, joined.reader.bases, Current(st.log)) {
      SteadyJoinerAgrees(env, d, r, wcfg, st, q, k);
    }
    if SmoothRun(env, wcfg, q, d.checkKey, joined, ticks) {
      RunLongAgreement(env, wcfg, q, d.checkKey, joined, ticks);
    }
  }
}
