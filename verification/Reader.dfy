/** The reader: discard policies, resolution of partial updates, and the unread history. */
module Reader {
  import opened Samples
  import opened History
  import opened PublishLog

  datatype DiscardPolicy = NoDiscard | SendTime | Priority

  datatype ReaderEnv = ReaderEnv(codec: Codec, config: Config, policy: DiscardPolicy, matchKey: Key -> bool)

  /** The circumstances of one delivery: whether the key must be checked, which keys have a connected publisher of
      higher priority than the sender, and the time. A key filter that throws counts as not matching. */
  datatype Delivery = Delivery(checkKey: bool, outranked: Key -> bool, now: int)

  /** `calls` is what the onSamples callback received, in order. */
  datatype ReaderState = ReaderState(
    bases: map<Key, Sample>, history: seq<Sample>, lastSendTime: int, calls: seq<Sample>)

  const FRESH_READER := ReaderState(map[], [], 0, [])

  datatype Receipt = Receipt(bases: map<Key, Sample>, sample: Option<Sample>)

  predicate Wanted(env: ReaderEnv, d: Delivery, k: Key) {
    d.checkKey ==> env.matchKey(k)
  }

  predicate Discards(env: ReaderEnv, d: Delivery, lastSendTime: int, s: Sample) {
    || (env.policy.SendTime? && s.timestamp <= lastSendTime)
    || (env.policy.Priority? && d.outranked(s.key))
  }

  /** A discarded full value still serves as the base of a key that has none. */
  function Reseed(c: Codec, bases: map<Key, Sample>, s: Sample): map<Key, Sample> {
    if s.event.PartialUpdate? || s.event.Remove? || s.key in bases then bases
    else bases[s.key := if s.value.None? then Decode(c, s) else s]
  }

  /** The sample with its value, or None for a partial update that has no base. */
  function Resolve(c: Codec, bases: map<Key, Sample>, s: Sample): Option<Sample> {
    if s.value.Some? || s.event.Remove? then Some(s)
    else if !s.event.PartialUpdate? then Some(Decode(c, s))
    else if s.key in bases && bases[s.key].value.Some? then Some(ApplyUpdate(c, bases[s.key], s))
    else None
  }

  /** What one sample does to the per-key bases, and the sample delivered to the application, if any. */
  function Receive(env: ReaderEnv, d: Delivery, bases: map<Key, Sample>, lastSendTime: int, s: Sample): Receipt {
    if !Wanted(env, d, s.key) then Receipt(bases, None)
    else if Discards(env, d, lastSendTime, s) then Receipt(Reseed(env.codec, bases, s), None)
    else
      match Resolve(env.codec, bases, s)
      case None => Receipt(bases, None)
      case Some(r) => Receipt(Rebase(bases, r), Some(r))
  }

  /** DataReaderI::queue. */
  function Queue(env: ReaderEnv, d: Delivery, st: ReaderState, s: Sample): ReaderState {
    var r := Receive(env, d, st.bases, st.lastSendTime, s);
    match r.sample
    case None => st.(bases := r.bases)
    case Some(t) => ReaderState(r.bases, Append(env.config, st.history, t, d.now), t.timestamp, st.calls + [t])
  }

  function QueueAll(env: ReaderEnv, d: Delivery, st: ReaderState, samples: seq<Sample>): ReaderState {
    if samples == [] then st else Queue(env, d, QueueAll(env, d, st, Front(samples)), Last(samples))
  }

  datatype BatchReceipt = BatchReceipt(bases: map<Key, Sample>, valid: seq<Sample>)

  /** The first loop of initSamples: the send time is the one from before the batch throughout. */
  function ReceiveAll(env: ReaderEnv, d: Delivery, bases: map<Key, Sample>, lastSendTime: int, samples: seq<Sample>)
    : BatchReceipt
  {
    if samples == [] then BatchReceipt(bases, [])
    else
      var b := ReceiveAll(env, d, bases, lastSendTime, Front(samples));
      var r := Receive(env, d, b.bases, lastSendTime, Last(samples));
      BatchReceipt(r.bases, b.valid + if r.sample.Some? then [r.sample.value] else [])
  }

  /** Appends the batch, clearing as it goes, before any trimming. */
  function PushAll(cfg: Config, h: seq<Sample>, valid: seq<Sample>): seq<Sample> {
    if valid == [] then h
    else (if cfg.Clears(Last(valid).event) then [] else PushAll(cfg, h, Front(valid))) + [Last(valid)]
  }

  function Newest(cfg: Config, h: seq<Sample>): seq<Sample> {
    if cfg.Bounded() && |h| > cfg.sampleCount.value then h[|h| - cfg.sampleCount.value..] else h
  }

  function InitHistory(cfg: Config, h: seq<Sample>, valid: seq<Sample>, now: int): seq<Sample>
    requires valid != []
  {
    var live := Reap(cfg, h, now);
    if cfg.KeepsNoHistory() then live
    else Newest(cfg, if cfg.clearHistory == Some(OnAll) then [Last(valid)] else PushAll(cfg, live, valid))
  }

  /** DataReaderI::initSamples. */
  function Init(env: ReaderEnv, d: Delivery, st: ReaderState, samples: seq<Sample>): ReaderState {
    var b := ReceiveAll(env, d, st.bases, st.lastSendTime, samples);
    if b.valid == [] then st.(bases := b.bases)
    else ReaderState(b.bases, InitHistory(env.config, st.history, b.valid, d.now), Last(b.valid).timestamp,
                     st.calls + b.valid)
  }

  // ----- safety over whole runs -----

  datatype Op =
    | QueueOp(d: Delivery, sample: Sample)
    | InitOp(d: Delivery, samples: seq<Sample>)
    | GetAllUnread
    | GetNextUnread

  function Apply(env: ReaderEnv, st: ReaderState, op: Op): ReaderState {
    match op
    case QueueOp(d, s) => Queue(env, d, st, s)
    case InitOp(d, samples) => Init(env, d, st, samples)
    case GetAllUnread => st.(history := [])
    case GetNextUnread => if st.history == [] then st else st.(history := st.history[1..])
  }

  function RunOps(env: ReaderEnv, ops: seq<Op>): ReaderState {
    if ops == [] then FRESH_READER else Apply(env, RunOps(env, Front(ops)), Last(ops))
  }

  /** A base an updater can be applied to. */
  predicate Usable(k: Key, s: Sample) {
    s.key == k && s.value.Some? && !s.event.Remove?
  }

  ghost predicate BasesUsable(bases: map<Key, Sample>) {
    forall k :: k in bases ==> Usable(k, bases[k])
  }

  ghost predicate ReaderInv(env: ReaderEnv, st: ReaderState) {
    && BasesUsable(st.bases)
    && (env.config.Bounded() ==> |st.history| <= env.config.sampleCount.value)
    && (env.config.KeepsNoHistory() ==> st.history == [])
  }

  lemma ReceiveKeepsBases(env: ReaderEnv, d: Delivery, bases: map<Key, Sample>, lastSendTime: int, s: Sample)
    requires BasesUsable(bases)
    ensures BasesUsable(Receive(env, d, bases, lastSendTime, s).bases)
  {
  }

  lemma {:induction false} ReceiveAllKeepsBases(
    env: ReaderEnv, d: Delivery, bases: map<Key, Sample>, lastSendTime: int, samples: seq<Sample>)
    requires BasesUsable(bases)
    ensures BasesUsable(ReceiveAll(env, d, bases, lastSendTime, samples).bases)
  {
    if samples != [] {
      ReceiveAllKeepsBases(env, d, bases, lastSendTime, Front(samples));
      ReceiveKeepsBases(env, d, ReceiveAll(env, d, bases, lastSendTime, Front(samples)).bases, lastSendTime,
        Last(samples));
    }
  }

  lemma ApplyKeepsInv(env: ReaderEnv, st: ReaderState, op: Op)
    requires ReaderInv(env, st)
    ensures ReaderInv(env, Apply(env, st, op))
  {
    match op
    case QueueOp(d, s) => ReceiveKeepsBases(env, d, st.bases, st.lastSendTime, s);
    case InitOp(d, samples) => ReceiveAllKeepsBases(env, d, st.bases, st.lastSendTime, samples);
    case GetAllUnread =>
    case GetNextUnread =>
  }

  /** Over any run of deliveries and reads the history stays within a positive count, and every base has a value and
      is not a remove. */
  lemma {:induction false} RunOpsKeepsInv(env: ReaderEnv, ops: seq<Op>)
    ensures ReaderInv(env, RunOps(env, ops))
  {
    if ops != [] {
      RunOpsKeepsInv(env, Front(ops));
      ApplyKeepsInv(env, RunOps(env, Front(ops)), Last(ops));
    }
  }

  // ----- initSamples refines queue -----

  /** Nothing in the batch is stale on arrival. */
  ghost predicate ArrivesFresh(cfg: Config, samples: seq<Sample>, now: int) {
    cfg.HasLifetime() ==> forall i :: 0 <= i < |samples| ==> samples[i].timestamp >= cfg.StaleTime(now)
  }

  lemma ReapFresh(cfg: Config, h: seq<Sample>, now: int)
    requires ArrivesFresh(cfg, h, now)
    ensures Reap(cfg, h, now) == h
  {
    if cfg.HasLifetime() {
      CleanOldKeepsAll(h, cfg.StaleTime(now));
    }
  }

  lemma ReapedIsFresh(cfg: Config, h: seq<Sample>, now: int)
    ensures ArrivesFresh(cfg, Reap(cfg, h, now), now)
  {
    if cfg.HasLifetime() {
      var r := Reap(cfg, h, now);
      forall i | 0 <= i < |r| ensures r[i].timestamp >= cfg.StaleTime(now) {
        CleanOldMembers(h, cfg.StaleTime(now), r[i]);
      }
    }
  }

  lemma {:induction false} PushAllFresh(cfg: Config, h: seq<Sample>, valid: seq<Sample>, now: int)
    requires ArrivesFresh(cfg, h, now) && ArrivesFresh(cfg, valid, now)
    ensures ArrivesFresh(cfg, PushAll(cfg, h, valid), now)
  {
    if valid != [] {
      PushAllFresh(cfg, h, Front(valid), now);
    }
  }

  lemma InitHistoryFresh(cfg: Config, h: seq<Sample>, valid: seq<Sample>, now: int)
    requires valid != [] && ArrivesFresh(cfg, valid, now)
    ensures ArrivesFresh(cfg, InitHistory(cfg, h, valid, now), now)
  {
    ReapedIsFresh(cfg, h, now);
    PushAllFresh(cfg, Reap(cfg, h, now), valid, now);
  }

  function HistoryAfter(cfg: Config, h: seq<Sample>, valid: seq<Sample>, now: int): seq<Sample> {
    if valid == [] then h else InitHistory(cfg, h, valid, now)
  }

  lemma PushAfterNewest(cfg: Config, all: seq<Sample>, t: Sample)
    requires !cfg.KeepsNoHistory()
    ensures Push(cfg, Newest(cfg, all), t) == Newest(cfg, (if cfg.Clears(t.event) then [] else all) + [t])
  {
  }

  /** The history loop of initSamples does, per sample, what queue does. */
  lemma InitHistoryStep(cfg: Config, h: seq<Sample>, valid: seq<Sample>, t: Sample, now: int)
    requires cfg.Bounded() ==> |h| <= cfg.sampleCount.value
    requires ArrivesFresh(cfg, valid, now)
    ensures InitHistory(cfg, h, valid + [t], now) == Append(cfg, HistoryAfter(cfg, h, valid, now), t, now)
  {
    var live := Reap(cfg, h, now);
    assert Front(valid + [t]) == valid;
    if valid != [] {
      InitHistoryFresh(cfg, h, valid, now);
      ReapFresh(cfg, InitHistory(cfg, h, valid, now), now);
    }
    if !cfg.KeepsNoHistory() {
      var all := PushAll(cfg, live, valid);
      assert PushAll(cfg, live, valid + [t]) == (if cfg.Clears(t.event) then [] else all) + [t];
      if cfg.clearHistory == Some(OnAll) {
        assert Last(valid + [t]) == t;
      } else {
        PushAfterNewest(cfg, all, t);
      }
    }
  }

  lemma ReceiveKeepsTimestamp(env: ReaderEnv, d: Delivery, bases: map<Key, Sample>, lastSendTime: int, s: Sample)
    ensures var r := Receive(env, d, bases, lastSendTime, s).sample; r.Some? ==> r.value.timestamp == s.timestamp
  {
  }

  lemma {:induction false} ReceiveAllArrivesFresh(
    env: ReaderEnv, d: Delivery, bases: map<Key, Sample>, lastSendTime: int, samples: seq<Sample>)
    requires ArrivesFresh(env.config, samples, d.now)
    ensures ArrivesFresh(env.config, ReceiveAll(env, d, bases, lastSendTime, samples).valid, d.now)
  {
    if samples != [] {
      ReceiveAllArrivesFresh(env, d, bases, lastSendTime, Front(samples));
      ReceiveKeepsTimestamp(env, d, ReceiveAll(env, d, bases, lastSendTime, Front(samples)).bases, lastSendTime,
        Last(samples));
    }
  }

  /** Loading a batch leaves the reader in the state it reaches when each sample is queued in turn: same bases,
      history, send time and callbacks. It needs a policy other than SendTime, and a batch without stale samples when
      the reader has a lifetime. */
  lemma {:induction false} InitRefinesQueue(env: ReaderEnv, d: Delivery, st: ReaderState, samples: seq<Sample>)
    requires ReaderInv(env, st)
    requires !env.policy.SendTime? && ArrivesFresh(env.config, samples, d.now)
    ensures Init(env, d, st, samples) == QueueAll(env, d, st, samples)
  {
    if samples != [] {
      var b := ReceiveAll(env, d, st.bases, st.lastSendTime, Front(samples));
      var prefix := Init(env, d, st, Front(samples));
      InitRefinesQueue(env, d, st, Front(samples));
      ReceiveAllArrivesFresh(env, d, st.bases, st.lastSendTime, Front(samples));
      var r := Receive(env, d, b.bases, st.lastSendTime, Last(samples));
      assert prefix.history == HistoryAfter(env.config, st.history, b.valid, d.now);
      assert Receive(env, d, prefix.bases, prefix.lastSendTime, Last(samples)) == r;
      if r.sample.Some? {
        InitHistoryStep(env.config, st.history, b.valid, r.sample.value, d.now);
        assert st.calls + b.valid + [r.sample.value] == st.calls + (b.valid + [r.sample.value]);
      } else {
        assert b.valid + [] == b.valid;
      }
    }
  }
}
