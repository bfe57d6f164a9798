/** What queueing a sample and loading a batch do to a reader, said without the functions that compute it. */
module ReaderSteps {
  import opened Samples
  import opened History
  import opened PublishLog
  import opened Reader

  // ----- one sample -----

  /** The key has a value to which an update can be applied. */
  predicate HasValue(bases: map<Key, Sample>, k: Key) {
    k in bases && bases[k].value.Some?
  }

  /** `r` is `s` with its value: its own, the decoded one, or its update applied to the key's value. */
  predicate IsResolved(c: Codec, bases: map<Key, Sample>, s: Sample, r: Sample) {
    && r.id == s.id && r.event == s.event && r.key == s.key && r.tag == s.tag && r.timestamp == s.timestamp
    && (if s.value.Some? || s.event.Remove? then r.value == s.value && r.encoded == s.encoded
        else if s.event.PartialUpdate? then
          && HasValue(bases, s.key)
          && r.value == Some(c.apply(s.tag, bases[s.key].value.value, s.encoded)) && r.encoded == s.encoded
        else r.value == Some(c.decode(s.encoded)) && r.encoded == [])
  }

  /** The reader's key filter does not match the key. */
  predicate IsForeign(env: ReaderEnv, d: Delivery, s: Sample) {
    d.checkKey && !env.matchKey(s.key)
  }

  /** The sample loses to the discard policy: it was sent no later than the last one, or its sender is outranked. */
  predicate Loses(env: ReaderEnv, d: Delivery, lastSendTime: int, s: Sample) {
    match env.policy
    case NoDiscard => false
    case SendTime => s.timestamp <= lastSendTime
    case Priority => d.outranked(s.key)
  }

  /** A partial update of a key without a value. */
  predicate HasNoBase(bases: map<Key, Sample>, s: Sample) {
    s.event.PartialUpdate? && s.value.None? && !HasValue(bases, s.key)
  }

  /** Nothing is delivered; a full value that loses becomes the base of a key that has none. */
  predicate OnlySeeds(c: Codec, bases: map<Key, Sample>, s: Sample, bases': map<Key, Sample>) {
    if (s.event.Add? || s.event.Update?) && s.key !in bases then
      && s.key in bases' && IsResolved(c, bases, s, bases'[s.key])
      && bases' == bases[s.key := bases'[s.key]]
    else bases' == bases
  }

  /** What one sample does to the bases, and what is delivered. */
  predicate ReceiveOutcome(
    env: ReaderEnv, d: Delivery, bases: map<Key, Sample>, lastSendTime: int, s: Sample,
    bases': map<Key, Sample>, got: Option<Sample>)
  {
    if IsForeign(env, d, s) then got.None? && bases' == bases
    else if Loses(env, d, lastSendTime, s) then got.None? && OnlySeeds(env.codec, bases, s, bases')
    else if HasNoBase(bases, s) then got.None? && bases' == bases
    else
      && got.Some? && IsResolved(env.codec, bases, s, got.value)
      && bases' == if s.event.Remove? then bases - {s.key} else bases[s.key := got.value]
  }

  lemma ReceiveMeans(env: ReaderEnv, d: Delivery, bases: map<Key, Sample>, lastSendTime: int, s: Sample)
    ensures var r := Receive(env, d, bases, lastSendTime, s);
      ReceiveOutcome(env, d, bases, lastSendTime, s, r.bases, r.sample)
  {
  }

  /** Queueing a sample: what is delivered is called back once, sets the send time, and is added to the history. */
  predicate QueueOutcome(
    env: ReaderEnv, d: Delivery, st: ReaderState, s: Sample, st': ReaderState, got: Option<Sample>)
  {
    && ReceiveOutcome(env, d, st.bases, st.lastSendTime, s, st'.bases, got)
    && (match got
        case None => st' == st.(bases := st'.bases)
        case Some(t) =>
          && st'.calls == st.calls + [t] && st'.lastSendTime == t.timestamp
          && AppendOutcome(env.config, st.history, t, d.now, st'.history))
  }

  lemma QueueMeans(env: ReaderEnv, d: Delivery, st: ReaderState, s: Sample) returns (got: Option<Sample>)
    requires ReaderInv(env, st)
    ensures QueueOutcome(env, d, st, s, Queue(env, d, st, s), got)
  {
    ReceiveMeans(env, d, st.bases, st.lastSendTime, s);
    got := Receive(env, d, st.bases, st.lastSendTime, s).sample;
    if got.Some? {
      AppendMeans(env.config, st.history, got.value, d.now);
    }
  }

  /** The same in every state a reader can reach. */
  lemma EveryQueueMeans(env: ReaderEnv, ops: seq<Op>, d: Delivery, s: Sample) returns (got: Option<Sample>)
    ensures QueueOutcome(env, d, RunOps(env, ops), s, RunOps(env, ops + [QueueOp(d, s)]), got)
  {
    assert Front(ops + [QueueOp(d, s)]) == ops;
    RunOpsKeepsInv(env, ops);
    got := QueueMeans(env, d, RunOps(env, ops), s);
  }

  // ----- a batch -----

  /** The batch is received sample by sample, with the send time from before the batch throughout. */
  ghost predicate BatchOutcome(
    env: ReaderEnv, d: Delivery, bases: map<Key, Sample>, lastSendTime: int, samples: seq<Sample>,
    bases': map<Key, Sample>, valid: seq<Sample>)
  {
    if samples == [] then bases' == bases && valid == []
    else
      exists mid, older, got ::
        && BatchOutcome(env, d, bases, lastSendTime, Front(samples), mid, older)
        && ReceiveOutcome(env, d, mid, lastSendTime, Last(samples), bases', got)
        && valid == older + (if got.Some? then [got.value] else [])
  }

  lemma {:induction false} BatchMeans(
    env: ReaderEnv, d: Delivery, bases: map<Key, Sample>, lastSendTime: int, samples: seq<Sample>)
    ensures var b := ReceiveAll(env, d, bases, lastSendTime, samples);
      BatchOutcome(env, d, bases, lastSendTime, samples, b.bases, b.valid)
  {
    if samples != [] {
      var b := ReceiveAll(env, d, bases, lastSendTime, Front(samples));
      BatchMeans(env, d, bases, lastSendTime, Front(samples));
      ReceiveMeans(env, d, b.bases, lastSendTime, Last(samples));
    }
  }

  /** Where the last sample is on which the policy clears; the length if there is none. */
  function LastClearing(policy: Option<ClearPolicy>, valid: seq<Sample>): (i: nat)
    ensures i <= |valid|
    ensures i < |valid| ==> ClearedBy(policy, valid[i].event)
    ensures forall j :: i < j < |valid| ==> !ClearedBy(policy, valid[j].event)
    ensures i == |valid| ==> forall j :: 0 <= j < |valid| ==> !ClearedBy(policy, valid[j].event)
  {
    if valid == [] then 0
    else if ClearedBy(policy, Last(valid).event) then |valid| - 1
    else
      var i := LastClearing(policy, Front(valid));
      if i == |valid| - 1 then |valid| else i
  }

  /** The fresh old samples and the batch, from the last clearing sample of the batch on. */
  function Uncleared(policy: Option<ClearPolicy>, young: seq<Sample>, valid: seq<Sample>): seq<Sample> {
    var i := LastClearing(policy, valid);
    if i < |valid| then valid[i..] else young + valid
  }

  /** The history after a batch: the newest of these that the count allows. With a count of zero nothing is added. */
  predicate LoadOutcome(cfg: Config, h: seq<Sample>, valid: seq<Sample>, now: int, h': seq<Sample>) {
    var young := Young(cfg, h, now);
    var all := Uncleared(cfg.clearHistory, young, valid);
    if cfg.sampleCount == Some(0) then h' == young
    else if cfg.sampleCount.Some? && 0 < cfg.sampleCount.value < |all| then h' == Tail(all, cfg.sampleCount.value)
    else h' == all
  }

  lemma {:induction false} PushAllMeans(cfg: Config, young: seq<Sample>, valid: seq<Sample>)
    ensures PushAll(cfg, young, valid) == Uncleared(cfg.clearHistory, young, valid)
  {
    if valid == [] {
      assert young + valid == young;
    } else {
      var f, s := Front(valid), Last(valid);
      assert valid == f + [s];
      PushAllMeans(cfg, young, f);
      assert cfg.Clears(s.event) <==> ClearedBy(cfg.clearHistory, s.event);
      var i := LastClearing(cfg.clearHistory, f);
      if cfg.Clears(s.event) {
        assert valid[|valid| - 1..] == [s];
      } else if i < |f| {
        assert valid[i..] == f[i..] + [s];
      } else {
        assert young + valid == young + f + [s];
      }
    }
  }

  lemma LoadMeans(cfg: Config, h: seq<Sample>, valid: seq<Sample>, now: int)
    requires valid != []
    ensures LoadOutcome(cfg, h, valid, now, InitHistory(cfg, h, valid, now))
  {
    ReapIsYoung(cfg, h, now);
    PushAllMeans(cfg, Young(cfg, h, now), valid);
    if cfg.clearHistory == Some(OnAll) {
      assert valid[|valid| - 1..] == [Last(valid)];
    }
  }

  /** Loading a batch: what is delivered is called back in order, the last of it sets the send time, and the history
      takes in all of it. */
  ghost predicate InitOutcome(
    env: ReaderEnv, d: Delivery, st: ReaderState, samples: seq<Sample>, st': ReaderState, valid: seq<Sample>)
  {
    && BatchOutcome(env, d, st.bases, st.lastSendTime, samples, st'.bases, valid)
    && (if valid == [] then st' == st.(bases := st'.bases)
        else
          && st'.calls == st.calls + valid && st'.lastSendTime == Last(valid).timestamp
          && LoadOutcome(env.config, st.history, valid, d.now, st'.history))
  }

  lemma InitMeans(env: ReaderEnv, d: Delivery, st: ReaderState, samples: seq<Sample>) returns (valid: seq<Sample>)
    ensures InitOutcome(env, d, st, samples, Init(env, d, st, samples), valid)
  {
    BatchMeans(env, d, st.bases, st.lastSendTime, samples);
    valid := ReceiveAll(env, d, st.bases, st.lastSendTime, samples).valid;
    if valid != [] {
      LoadMeans(env.config, st.history, valid, d.now);
    }
  }

  /** Taking what is unread: everything, or the oldest sample. */
  lemma TakeMeans(env: ReaderEnv, st: ReaderState)
    ensures Apply(env, st, GetAllUnread) == st.(history := [])
    ensures st.history != [] ==> [st.history[0]] + Apply(env, st, GetNextUnread).history == st.history
    ensures Apply(env, st, GetNextUnread) == st.(history := Apply(env, st, GetNextUnread).history)
  {
  }
}
