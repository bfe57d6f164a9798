/** Exactly when every late joiner agrees with the writer on a key, whatever the clock did. */
module ExactAgreement {
  import opened Samples
  import opened History
  import opened PublishLog
  import opened KeyOrder
  import opened Shapes
  import opened InitBatch
  import opened Reader
  import opened Agreement
  import opened Divergence

  // ----- values that tell the samples of a key apart -----

  predicate Below(a: Sample, b: Sample) {
    a.value.Some? && b.value.Some? && a.value.value < b.value.value
  }

  /** Along the samples of a key the values strictly increase. */
  ghost predicate Rising(p: seq<Sample>) {
    forall i, j :: 0 <= i < j < |p| && !p[i].event.Remove? && !p[j].event.Remove? ==> Below(p[i], p[j])
  }

  /** Not less than any value in the log. */
  function Top(l: seq<Sample>): (t: int)
    ensures forall i :: 0 <= i < |l| && l[i].value.Some? ==> l[i].value.value <= t
  {
    if l == [] then 0
    else
      var t := Top(Front(l));
      if Last(l).value.Some? && Last(l).value.value > t then Last(l).value.value else t
  }

  /** The same action with another full value. */
  function Raise(a: Action, v: Value): Action {
    if a.Publish? && a.draft.value.Some? then
      var draft: DraftSample := a.draft.(value := Some(v));
      Publish(draft, a.id, a.now)
    else a
  }

  lemma RisingSnoc(p: seq<Sample>, s: Sample)
    requires Rising(p) && (forall i :: 0 <= i < |p| && !p[i].event.Remove? ==> s.event.Remove? || Below(p[i], s))
    ensures Rising(p + [s])
  {
  }

  lemma StepRises(cfg: Config, st: WriterState, a: Action, k: Key)
    requires WriterInv(Stepper(), cfg, st) && Rising(Project(st.log, k))
    ensures Rising(Project(Step(Stepper(), cfg, st, Raise(a, Top(st.log) + 1)).log, k))
  {
    var b := Raise(a, Top(st.log) + 1);
    if b.Publish? && ResolveDraft(Stepper(), Current(st.log), b.draft).Some? {
      var s := ResolveDraft(Stepper(), Current(st.log), b.draft).value.(id := b.id, timestamp := b.now);
      ProjectSnoc(st.log, s, k);
      if s.key == k {
        var p := Project(st.log, k);
        assert KeyWellFormed(Stepper(), st.log, k);
        CurrentIsNewest(st.log, k);
        forall i | 0 <= i < |p| && !p[i].event.Remove? ensures s.event.Remove? || Below(p[i], s) {
          ProjectMembers(st.log, k, p[i]);
          assert Sound(p[i]);
        }
        RisingSnoc(p, s);
      }
    }
  }

  lemma SameShapesSnoc(acts: seq<Action>, init: seq<Action>, a: Action)
    requires acts != [] && SameShapes(Front(acts), init) && SameShape(Last(acts), a)
    ensures SameShapes(acts, init + [a])
  {
    var r := init + [a];
    forall i | 0 <= i < |acts| ensures SameShape(acts[i], r[i]) {
      if i < |acts| - 1 {
        assert acts[i] == Front(acts)[i] && r[i] == init[i];
      }
    }
  }

  lemma RunSnoc(c: Codec, cfg: Config, acts: seq<Action>, a: Action)
    ensures Run(c, cfg, acts + [a]) == Step(c, cfg, Run(c, cfg, acts), a)
  {
    assert Front(acts + [a]) == acts && Last(acts + [a]) == a;
  }

  /** A run of the same shape in which every full value is above all values published before it. */
  lemma {:induction false} RaisedRun(c: Codec, cfg: Config, acts: seq<Action>, k: Key) returns (r: seq<Action>)
    requires AdmissibleRun(c, cfg, acts)
    ensures SameShapes(acts, r) && AdmissibleRun(Stepper(), cfg, r)
    ensures Rising(Project(Run(Stepper(), cfg, r).log, k))
  {
    if acts == [] {
      r := [];
    } else {
      AdmissibleFront(c, cfg, acts);
      var init := RaisedRun(c, cfg, Front(acts), k);
      var st := Run(Stepper(), cfg, init);
      var a := Raise(Last(acts), Top(st.log) + 1);
      r := init + [a];
      SameShapesSnoc(acts, init, a);
      RunsAlike(c, Stepper(), cfg, acts, r);
      RunKeepsInv(Stepper(), cfg, init);
      StepRises(cfg, st, Last(acts), k);
      RunSnoc(Stepper(), cfg, init, a);
    }
  }

  // ----- a replay with a gap falls behind -----

  /** The reader's value for `k`, if it has one, is at most that of the newest replayed sample. */
  ghost predicate AtMost(mine: map<Key, Sample>, k: Key, t: seq<Sample>) {
    k in mine ==>
      && t != [] && !Last(t).event.Remove?
      && mine[k].value.Some? && Last(t).value.Some?
      && mine[k].value.value <= Last(t).value.value
  }

  /** ... and less than it. */
  ghost predicate Behind(mine: map<Key, Sample>, k: Key, t: seq<Sample>) {
    AtMost(mine, k, t) && (k in mine ==> mine[k].value.value < Last(t).value.value)
  }

  /** What receiving one more sample of the key does to the reader's value, with updates that increment. */
  lemma ReceiveSteps(
    env: ReaderEnv, d: Delivery, lastSendTime: int, mine: map<Key, Sample>, prefix: seq<Sample>, s: Sample)
    requires env.codec == Stepper() && Sound(s) && (s.event.PartialUpdate? ==> s.encoded != [])
    requires Wanted(env, d, s.key) && !Discards(env, d, lastSendTime, s)
    ensures var after := Receive(env, d, mine, lastSendTime, FromWire(WireOf(env.codec, prefix, s))).bases;
      if s.event.Remove? then s.key !in after
      else if s.event.PartialUpdate? && s.key in KeySet(prefix) then
        if s.key in mine && mine[s.key].value.Some? then
          s.key in after && after[s.key].value == Some(mine[s.key].value.value + 1)
        else s.key in after ==> s.key in mine && after[s.key] == mine[s.key]
      else s.key in after && after[s.key].value == s.value
  {
    StepperIsLawful();
    if !s.event.Remove? {
      assert env.codec.decode(env.codec.encode(s.value.value)) == s.value.value;
    }
  }

  /** The samples of one key in a batch, with the facts the replay needs. */
  ghost predicate Replayable(env: ReaderEnv, d: Delivery, lastSendTime: int, src: seq<Sample>, k: Key) {
    && env.codec == Stepper() && AllSound(src) && UpdatesEncoded(src)
    && Undisturbed(env, d, lastSendTime, src) && Wanted(env, d, k) && Rising(Project(src, k))
  }

  lemma ReplayableFront(env: ReaderEnv, d: Delivery, lastSendTime: int, src: seq<Sample>, k: Key)
    requires src != [] && Replayable(env, d, lastSendTime, src, k)
    ensures Replayable(env, d, lastSendTime, Front(src), k)
    ensures Project(src, k) == Project(Front(src), k) + if Last(src).key == k then [Last(src)] else []
  {
    var p, f := Project(src, k), Project(Front(src), k);
    assert forall i :: 0 <= i < |f| ==> p[i] == f[i];
  }

  lemma {:induction false} ReplayAtMost(env: ReaderEnv, d: Delivery, lastSendTime: int, src: seq<Sample>, k: Key)
    requires Replayable(env, d, lastSendTime, src, k)
    ensures AtMost(Replay(env, d, map[], lastSendTime, src).bases, k, Project(src, k))
  {
    if src != [] {
      ReplaySnoc(env, d, map[], lastSendTime, src);
      ReplayableFront(env, d, lastSendTime, src, k);
      ReplayAtMost(env, d, lastSendTime, Front(src), k);
      var s, before, f := Last(src), Replay(env, d, map[], lastSendTime, Front(src)).bases, Project(Front(src), k);
      if s.key == k {
        ProjectEmptyIffNoKey(Front(src), k);
        ReceiveSteps(env, d, lastSendTime, before, Front(src), s);
        assert Last(f + [s]) == s;
        assert f != [] ==> (f + [s])[|f| - 1] == Last(f);
      } else {
        ReceiveLeavesOthers(env, d, lastSendTime, before, FromWire(WireOf(env.codec, Front(src), s)), k);
        assert Project(src, k) == f;
      }
    }
  }

  /** `j` is missing from `t`, which has an older sample, and whatever `t` has after it are partial updates. */
  ghost predicate Misses(t: seq<Sample>, j: Sample) {
    && t != [] && t[0].id < j.id && j.value.Some?
    && (forall i :: 0 <= i < |t| ==> t[i].id != j.id)
    && (forall i :: 0 <= i < |t| && t[i].id < j.id && !t[i].event.Remove? ==> Below(t[i], j))
    && (forall i :: 0 <= i < |t| && t[i].id > j.id ==> t[i].event.PartialUpdate? && Below(j, t[i]))
  }

  lemma MissesFront(f: seq<Sample>, s: Sample, j: Sample)
    requires IdsIncrease(f + [s]) && Misses(f + [s], j) && s.id > j.id
    ensures f != [] && IdsIncrease(f) && Misses(f, j)
    ensures s.event.PartialUpdate? && Below(j, s)
  {
    assert forall i :: 0 <= i < |f| ==> (f + [s])[i] == f[i];
    assert (f + [s])[|f|] == s;
  }

  lemma RisingLast(f: seq<Sample>, s: Sample)
    requires Rising(f + [s]) && f != [] && !Last(f).event.Remove? && !s.event.Remove?
    ensures Below(Last(f), s)
  {
    assert (f + [s])[|f| - 1] == Last(f) && (f + [s])[|f|] == s;
  }

  /** A partial update after the gap: the reader's value is too low, or too low already. */
  lemma GapStep(
    env: ReaderEnv, d: Delivery, lastSendTime: int, mine: map<Key, Sample>, prefix: seq<Sample>, s: Sample, j: Sample)
    requires env.codec == Stepper() && Sound(s) && s.event.PartialUpdate? && s.encoded != []
    requires Wanted(env, d, s.key) && !Discards(env, d, lastSendTime, s)
    requires Project(prefix, s.key) != [] && Misses(Project(prefix, s.key), j) && Below(j, s)
    requires !Last(Project(prefix, s.key)).event.Remove? ==> Below(Last(Project(prefix, s.key)), s)
    requires AtMost(mine, s.key, Project(prefix, s.key))
    requires Last(Project(prefix, s.key)).id > j.id ==> Behind(mine, s.key, Project(prefix, s.key))
    ensures var after := Receive(env, d, mine, lastSendTime, FromWire(WireOf(env.codec, prefix, s))).bases;
      s.key in after ==> after[s.key].value.Some? && after[s.key].value.value < s.value.value
  {
    ProjectEmptyIffNoKey(prefix, s.key);
    ReceiveSteps(env, d, lastSendTime, mine, prefix, s);
  }

  lemma GapStepBehind(
    env: ReaderEnv, d: Delivery, lastSendTime: int, mine: map<Key, Sample>, prefix: seq<Sample>, s: Sample, j: Sample)
    requires env.codec == Stepper() && Sound(s) && (s.event.PartialUpdate? ==> s.encoded != [])
    requires Wanted(env, d, s.key) && !Discards(env, d, lastSendTime, s)
    requires var t := Project(prefix, s.key) + [s]; IdsIncrease(t) && Rising(t) && Misses(t, j) && s.id > j.id
    requires AtMost(mine, s.key, Project(prefix, s.key))
    requires Project(prefix, s.key) != [] && Last(Project(prefix, s.key)).id > j.id ==>
      Behind(mine, s.key, Project(prefix, s.key))
    ensures Behind(Receive(env, d, mine, lastSendTime, FromWire(WireOf(env.codec, prefix, s))).bases, s.key,
                   Project(prefix, s.key) + [s])
  {
    var f := Project(prefix, s.key);
    MissesFront(f, s, j);
    if !Last(f).event.Remove? {
      RisingLast(f, s);
    }
    GapStep(env, d, lastSendTime, mine, prefix, s, j);
    assert Last(f + [s]) == s;
  }

  /** Once a partial update follows the gap the reader stays behind. */
  lemma {:induction false} ReplayFallsBehind(
    env: ReaderEnv, d: Delivery, lastSendTime: int, src: seq<Sample>, k: Key, j: Sample)
    requires Replayable(env, d, lastSendTime, src, k) && IdsIncrease(Project(src, k))
    requires Misses(Project(src, k), j) && Last(Project(src, k)).id > j.id
    ensures Behind(Replay(env, d, map[], lastSendTime, src).bases, k, Project(src, k))
  {
    ReplaySnoc(env, d, map[], lastSendTime, src);
    ReplayableFront(env, d, lastSendTime, src, k);
    var s, before, f := Last(src), Replay(env, d, map[], lastSendTime, Front(src)).bases, Project(Front(src), k);
    if s.key == k {
      assert Project(src, k) == f + [s];
      MissesFront(f, s, j);
      ReplayAtMost(env, d, lastSendTime, Front(src), k);
      if Last(f).id > j.id {
        ReplayFallsBehind(env, d, lastSendTime, Front(src), k, j);
      }
      GapStepBehind(env, d, lastSendTime, before, Front(src), s, j);
    } else {
      assert Project(src, k) == f;
      ReplayFallsBehind(env, d, lastSendTime, Front(src), k, j);
      ReceiveLeavesOthers(env, d, lastSendTime, before, FromWire(WireOf(env.codec, Front(src), s)), k);
    }
  }

  // ----- readers of one key -----

  const SINGLE := Config(Some(1), None, None)

  function OneKey(k: Key, cfg: Config, now: int): Query {
    Query(Some(k), _ => true, cfg, 0, now)
  }

  lemma {:induction false} ScanAll(h: seq<Sample>, k: Key, taken: nat, now: int)
    requires IdsPositive(h)
    ensures Scan(h, OneKey(k, UNLIMITED, now), taken) == Project(h, k)
  {
    if h != [] {
      ScanAll(Front(h), k, taken, now);
      ScanAll(Front(h), k, taken + 1, now);
    }
  }

  lemma {:induction false} ScanOne(h: seq<Sample>, k: Key, now: int)
    requires IdsPositive(h)
    ensures Scan(h, OneKey(k, SINGLE, now), 0) == if Project(h, k) == [] then [] else [Last(Project(h, k))]
  {
    if h != [] {
      ScanOne(Front(h), k, now);
    }
  }

  lemma {:induction false} ProjectTwice(h: seq<Sample>, k: Key)
    ensures Project(Project(h, k), k) == Project(h, k)
  {
    if h != [] {
      ProjectTwice(Front(h), k);
      ProjectSnoc(Project(Front(h), k), Last(h), k);
      assert Project(h, k) == if Last(h).key == k then Project(Front(h), k) + [Last(h)] else Project(Front(h), k);
    }
  }

  lemma DrawnIdsPositive(h: seq<Sample>, l: seq<Sample>)
    requires Drawn(h, l) && IdsPositive(l)
    ensures IdsPositive(h)
  {
  }

  /** A reader of one key without limits gets all that is left of the key. */
  lemma WholeKeyBatch(c: Codec, wcfg: Config, st: WriterState, k: Key, now: int)
    requires WriterInv(c, wcfg, st) && Project(Reap(wcfg, st.history, now), k) != []
    ensures Project(BatchSamples(wcfg, st, OneKey(k, UNLIMITED, now)), k) == Project(Reap(wcfg, st.history, now), k)
  {
    var q, h := OneKey(k, UNLIMITED, now), Reap(wcfg, st.history, now);
    HistoryForDrawn(c, wcfg, st, q);
    DrawnIdsPositive(h, st.log);
    ScanAll(h, k, 0, now);
    ScannedDrawn(st.log, h, q);
    ProjectTwice(h, k);
    ProjectEmptyIffNoKey(Scanned(h, q), k);
    SourcesOfScannedKey(st.log, Scanned(h, q), q, k);
  }

  /** A reader of one key that keeps one sample gets the newest that is left of the key. */
  lemma NewestOnlyBatch(c: Codec, wcfg: Config, st: WriterState, k: Key, now: int)
    requires WriterInv(c, wcfg, st) && Project(Reap(wcfg, st.history, now), k) != []
    ensures var kept := Project(Reap(wcfg, st.history, now), k);
      Project(BatchSamples(wcfg, st, OneKey(k, SINGLE, now)), k) == [Last(kept)]
  {
    var q, h := OneKey(k, SINGLE, now), Reap(wcfg, st.history, now);
    var kept := Project(h, k);
    HistoryForDrawn(c, wcfg, st, q);
    DrawnIdsPositive(h, st.log);
    ScanOne(h, k, now);
    ProjectMembers(h, k, Last(kept));
    ScannedDrawn(st.log, h, q);
    assert Scanned(h, q)[0].key in KeySet(Scanned(h, q));
    SourcesOfScannedKey(st.log, Scanned(h, q), q, k);
    assert Front([Last(kept)]) == [];
    assert Project([Last(kept)], k) == [Last(kept)];
    CapIsTail(SINGLE, Sources(st.log, Scanned(h, q), q), k);
  }

  // ----- batches without a gap -----

  function Earliest(h: seq<Sample>): (r: int)
    ensures forall i :: 0 <= i < |h| ==> r <= h[i].timestamp
  {
    if h == [] then 0
    else
      var r := Earliest(Front(h));
      if h == [Last(h)] || Last(h).timestamp < r then Last(h).timestamp else r
  }

  /** Every batch holds the newest published samples of the key. */
  ghost predicate AlwaysTail(wcfg: Config, st: WriterState, k: Key) {
    forall q: Query :: q.Unfiltered() ==> IsSuffix(Project(BatchSamples(wcfg, st, q), k), Project(st.log, k))
  }

  lemma LeftIsTail(c: Codec, wcfg: Config, st: WriterState, k: Key, now: int)
    requires WriterInv(c, wcfg, st) && AlwaysTail(wcfg, st, k)
    ensures IsSuffix(Reap(wcfg, Project(st.history, k), now), Project(st.log, k))
  {
    ProjectReap(wcfg, st.history, now, k);
    var q := OneKey(k, UNLIMITED, now);
    assert q.Unfiltered();
    if Project(Reap(wcfg, st.history, now), k) != [] {
      WholeKeyBatch(c, wcfg, st, k, now);
    }
  }

  lemma ShorterSuffix(a: seq<Sample>, b: seq<Sample>, l: seq<Sample>)
    requires IsSuffix(a, l) && IsSuffix(b, l) && |a| <= |b|
    ensures IsSuffix(a, b)
  {
    assert b == l[|l| - |b|..];
    assert b[|b| - |a|..] == l[|l| - |a|..];
  }

  lemma CutIsTail(c: Codec, wcfg: Config, st: WriterState, k: Key, stale: int)
    requires WriterInv(c, wcfg, st) && wcfg.HasLifetime() && AlwaysTail(wcfg, st, k)
    ensures IsSuffix(CleanOld(Project(st.history, k), stale), Project(st.log, k))
    ensures |CleanOld(Project(st.history, k), stale)| <= |Project(st.history, k)|
  {
    var now := stale + 1000 * wcfg.sampleLifetime.value;
    assert Reap(wcfg, Project(st.history, k), now) == CleanOld(Project(st.history, k), stale);
    LeftIsTail(c, wcfg, st, k, now);
  }

  lemma UncutIsTail(c: Codec, wcfg: Config, st: WriterState, k: Key)
    requires WriterInv(c, wcfg, st) && wcfg.HasLifetime() && AlwaysTail(wcfg, st, k)
    ensures IsSuffix(Project(st.history, k), Project(st.log, k))
  {
    var hk := Project(st.history, k);
    CutIsTail(c, wcfg, st, k, Earliest(hk));
    CleanOldKeepsAll(hk, Earliest(hk));
  }

  lemma AlwaysTailIsGapless(c: Codec, wcfg: Config, st: WriterState, k: Key)
    requires WriterInv(c, wcfg, st) && AlwaysTail(wcfg, st, k)
    ensures Gapless(wcfg, st.log, st.history, k)
  {
    if wcfg.HasLifetime() {
      var hk := Project(st.history, k);
      UncutIsTail(c, wcfg, st, k);
      forall stale ensures IsSuffix(CleanOld(hk, stale), hk) {
        CutIsTail(c, wcfg, st, k, stale);
        ShorterSuffix(CleanOld(hk, stale), hk, Project(st.log, k));
      }
      ReapsPrefixIffMonotone(hk);
    } else {
      LeftIsTail(c, wcfg, st, k, 0);
    }
  }

  /** In any state of a writer, every batch holds the newest published samples of a key, without a gap, if and only if
      the history does, and, with a lifetime, holds them in the order of their times. */
  lemma BatchesAreTailsIffGapless(c: Codec, wcfg: Config, st: WriterState, k: Key)
    requires WriterInv(c, wcfg, st)
    ensures AlwaysTail(wcfg, st, k) <==> Gapless(wcfg, st.log, st.history, k)
  {
    if AlwaysTail(wcfg, st, k) {
      AlwaysTailIsGapless(c, wcfg, st, k);
    }
    if Gapless(wcfg, st.log, st.history, k) {
      forall q: Query | q.Unfiltered()
        ensures IsSuffix(Project(BatchSamples(wcfg, st, q), k), Project(st.log, k))
      {
        BatchIsTail(c, wcfg, st, q, k);
      }
    }
  }

  // ----- joining -----

  /** A fresh reader that asks with its own configuration. */
  ghost predicate MayJoin(env: ReaderEnv, d: Delivery, q: Query, wcfg: Config, st: WriterState, k: Key) {
    && Attachable(env, d, FRESH_READER, wcfg, st, q) && env.config == q.config
    && q.lastId <= 0 && q.WantsKey(k) && Wanted(env, d, k)
  }

  ghost predicate JoinerAgrees(env: ReaderEnv, d: Delivery, q: Query, wcfg: Config, st: WriterState, k: Key) {
    && AllSound(BatchSamples(wcfg, st, q))
    && AgreeOn(k, Attached(env, d, FRESH_READER, wcfg, st, q).bases, Current(st.log))
  }

  /** Every reader that may join, whatever its configuration and its time, agrees with the writer on the key. */
  ghost predicate AllJoinersAgree(c: Codec, wcfg: Config, st: WriterState, k: Key) {
    forall env: ReaderEnv, d: Delivery, q: Query ::
      env.codec == c && MayJoin(env, d, q, wcfg, st, k) ==> JoinerAgrees(env, d, q, wcfg, st, k)
  }

  /** The time at which everything older than `s` is stale. */
  function JustBefore(wcfg: Config, s: Sample): int {
    if wcfg.HasLifetime() then s.timestamp + 1000 * wcfg.sampleLifetime.value else 0
  }

  lemma PlainMayJoin(wcfg: Config, st: WriterState, cfg: Config, k: Key, now: int)
    requires UpdatesEncoded(st.log)
    ensures MayJoin(Plain(Stepper(), cfg), At(now), OneKey(k, cfg, now), wcfg, st, k)
  {
    StepperIsLawful();
  }

  lemma {:induction false} SubRises(p: seq<Sample>, t: seq<Sample>)
    requires IdsIncrease(p) && IdsIncrease(t) && Rising(p) && forall i :: 0 <= i < |t| ==> t[i] in p
    ensures Rising(t)
  {
    forall i, j | 0 <= i < j < |t| && !t[i].event.Remove? && !t[j].event.Remove? ensures Below(t[i], t[j]) {
      var a :| 0 <= a < |p| && p[a] == t[i];
      var b :| 0 <= b < |p| && p[b] == t[j];
      assert a < b;
    }
  }

  /** A live key has a value from its last full value on. */
  lemma LiveTailHasValues(c: Codec, p: seq<Sample>, j: nat)
    requires Chained(c, p) && IsLive(p) && !p[0].event.PartialUpdate? && LastFull(p) <= j < |p|
    ensures !p[j].event.Remove? && p[j].value.Some?
    ensures j > LastFull(p) ==> p[j].event.PartialUpdate?
  {
    LastFullIsLast(p);
    if j == LastFull(p) && j < |p| - 1 {
      assert Linked(c, p[j], p[j + 1]);
    }
    assert Sound(p[j]);
  }

  lemma AroundIndex(c: Codec, p: seq<Sample>, j: nat, a: nat)
    requires IdsIncrease(p) && Rising(p) && Chained(c, p) && IsLive(p) && !p[0].event.PartialUpdate?
    requires LastFull(p) <= j < |p| && a < |p| && a != j
    ensures a < j ==> p[a].id < p[j].id && (p[a].event.Remove? || Below(p[a], p[j]))
    ensures a > j ==> p[a].id > p[j].id && p[a].event.PartialUpdate? && Below(p[j], p[a])
  {
    LiveTailHasValues(c, p, j);
    if a > j {
      LiveTailHasValues(c, p, a);
    }
  }

  lemma AroundTheGap(c: Codec, p: seq<Sample>, j: nat, x: Sample)
    requires IdsIncrease(p) && Rising(p) && Chained(c, p) && IsLive(p) && !p[0].event.PartialUpdate?
    requires LastFull(p) <= j < |p| && x in p && x != p[j]
    ensures x.id != p[j].id
    ensures x.id < p[j].id && !x.event.Remove? ==> Below(x, p[j])
    ensures x.id > p[j].id ==> x.event.PartialUpdate? && Below(p[j], x)
  {
    var a :| 0 <= a < |p| && p[a] == x;
    AroundIndex(c, p, j, a);
  }

  lemma GapIsMissed(c: Codec, p: seq<Sample>, kept: seq<Sample>, i: nat, j: nat)
    requires IdsIncrease(p) && IdsIncrease(kept) && Rising(p) && (forall m :: 0 <= m < |kept| ==> kept[m] in p)
    requires Chained(c, p) && IsLive(p) && !p[0].event.PartialUpdate? && i < j < |p| && LastFull(p) <= j
    requires p[i] in kept && p[j] !in kept
    ensures Misses(kept, p[j])
  {
    LiveTailHasValues(c, p, j);
    forall m | 0 <= m < |kept|
      ensures kept[m].id != p[j].id
      ensures kept[m].id < p[j].id && !kept[m].event.Remove? ==> Below(kept[m], p[j])
      ensures kept[m].id > p[j].id ==> kept[m].event.PartialUpdate? && Below(p[j], kept[m])
    {
      AroundTheGap(c, p, j, kept[m]);
    }
    assert kept[0].id <= p[i].id;
  }

  /** A reader behind the newest sample that is left, or with one from before the gap, is behind the writer. */
  lemma BehindDisagrees(
    p: seq<Sample>, kept: seq<Sample>, j: nat, mine: map<Key, Sample>, theirs: map<Key, Sample>, k: Key)
    requires IdsIncrease(p) && Rising(p) && IsLive(p) && j < |p| && !p[j].event.Remove? && p[j].value.Some?
    requires kept != [] && Last(kept) in p && p[j] !in kept
    requires AtMost(mine, k, kept) && (Last(kept).id > p[j].id ==> Behind(mine, k, kept))
    requires k in theirs && theirs[k] == Last(p)
    ensures !AgreeOn(k, mine, theirs)
  {
    var a :| 0 <= a < |p| && p[a] == Last(kept);
    assert a != j;
    if k in mine {
      assert a < |p| - 1 ==> Below(p[a], p[|p| - 1]);
      assert a < j ==> Below(p[a], p[j]);
      assert j < |p| - 1 ==> Below(p[j], p[|p| - 1]);
    }
  }

  lemma BasesOfAttached(env: ReaderEnv, d: Delivery, wcfg: Config, st: WriterState, q: Query)
    requires AllSound(BatchSamples(wcfg, st, q))
    ensures Attached(env, d, FRESH_READER, wcfg, st, q).bases ==
      Replay(env, d, map[], 0, BatchSamples(wcfg, st, q)).bases
  {
  }

  /** What is left of the key when the older of the two samples is not stale yet. */
  lemma KeptFacts(wcfg: Config, st: WriterState, k: Key, now: int, i: nat, j: nat)
    requires WriterInv(Stepper(), wcfg, st) && Rising(Project(st.log, k))
    requires IsLive(Project(st.log, k)) && i < j < |Project(st.log, k)| && LastFull(Project(st.log, k)) <= j
    requires now == JustBefore(wcfg, Project(st.log, k)[i])
    requires var p := Project(st.log, k);
      p[i] in st.history && !(p[j] in st.history && NotOlder(wcfg, p[i], p[j]))
    ensures var p, kept := Project(st.log, k), Project(Reap(wcfg, st.history, now), k);
      && kept != [] && IdsIncrease(p) && IdsIncrease(kept) && Rising(kept)
      && Last(kept) in p && p[j] !in kept && Misses(kept, p[j])
      && Chained(Stepper(), p) && !p[0].event.PartialUpdate?
  {
    var p, h := Project(st.log, k), Reap(wcfg, st.history, now);
    var kept := Project(h, k);
    ReapDrawn(wcfg, st.history, st.log, now);
    ProjectIds(st.log, k);
    ProjectIds(h, k);
    assert KeyWellFormed(Stepper(), st.log, k);
    forall m | 0 <= m < |kept| ensures kept[m] in p {
      var _ := DrawnMember(h, st.log, k, m);
    }
    SubRises(p, kept);
    ReapMembers(wcfg, st.history, now, p[i]);
    ReapMembers(wcfg, st.history, now, p[j]);
    ProjectMembers(st.log, k, p[i]);
    ProjectMembers(h, k, p[i]);
    ProjectMembers(h, k, p[j]);
    GapIsMissed(Stepper(), p, kept, i, j);
  }

  /** A live key that is not steady: the reader that joins just when the older of two samples is not stale yet, and the
      one published after it is, or was reaped before, ends behind the writer. */
  lemma LiveJoinerDisagrees(wcfg: Config, st: WriterState, k: Key, i: nat, j: nat)
    requires WriterInv(Stepper(), wcfg, st) && UpdatesEncoded(st.log) && Rising(Project(st.log, k))
    requires IsLive(Project(st.log, k)) && i < j < |Project(st.log, k)| && LastFull(Project(st.log, k)) <= j
    requires var p := Project(st.log, k);
      p[i] in st.history && !(p[j] in st.history && NotOlder(wcfg, p[i], p[j]))
    ensures !AllJoinersAgree(Stepper(), wcfg, st, k)
  {
    var p := Project(st.log, k);
    var now := JustBefore(wcfg, p[i]);
    var env, d, q := Plain(Stepper(), UNLIMITED), At(now), OneKey(k, UNLIMITED, now);
    var h, src := Reap(wcfg, st.history, now), BatchSamples(wcfg, st, q);
    var kept := Project(h, k);
    PlainMayJoin(wcfg, st, UNLIMITED, k, now);
    KeptFacts(wcfg, st, k, now, i, j);
    WholeKeyBatch(Stepper(), wcfg, st, k, now);
    BatchSound(Stepper(), wcfg, st, q);
    BasesOfAttached(env, d, wcfg, st, q);
    LiveTailHasValues(Stepper(), p, j);
    CurrentIsNewest(st.log, k);
    ReplayAtMost(env, d, 0, src, k);
    if Last(kept).id > p[j].id {
      ReplayFallsBehind(env, d, 0, src, k, p[j]);
    }
    BehindDisagrees(p, kept, j, Replay(env, d, map[], 0, src).bases, Current(st.log), k);
    assert !JoinerAgrees(env, d, q, wcfg, st, k);
  }

  lemma LastLeftIsNoRemove(wcfg: Config, hk: seq<Sample>, i: nat, now: int)
    requires IdsIncrease(hk) && i < |hk| && !hk[i].event.Remove? && now == JustBefore(wcfg, hk[i])
    requires !exists j :: IsOutlived(wcfg, hk, i, j)
    ensures var kept := Reap(wcfg, hk, now); kept != [] && !Last(kept).event.Remove?
  {
    var kept := Reap(wcfg, hk, now);
    ReapMembers(wcfg, hk, now, hk[i]);
    ReapDrawn(wcfg, hk, hk, now);
    LastHasGreatestId(kept, hk[i]);
    var last := Last(kept);
    ReapMembers(wcfg, hk, now, last);
    var j :| 0 <= j < |hk| && hk[j] == last;
    assert j >= i;
    assert !IsOutlived(wcfg, hk, i, j);
  }

  lemma NewestLeftHasValue(wcfg: Config, h: seq<Sample>, k: Key, i: nat, now: int)
    requires IdsIncrease(h) && i < |Project(h, k)| && !Project(h, k)[i].event.Remove?
    requires now == JustBefore(wcfg, Project(h, k)[i]) && !exists j :: IsOutlived(wcfg, Project(h, k), i, j)
    ensures var kept := Project(Reap(wcfg, h, now), k); kept != [] && !Last(kept).event.Remove?
  {
    ProjectReap(wcfg, h, now, k);
    ProjectIds(h, k);
    LastLeftIsNoRemove(wcfg, Project(h, k), i, now);
  }

  /** A removed key that is not steady: a reader that keeps one sample, joining when the sample that no remove outlives
      is not stale yet, gets a value for the key. */
  lemma GoneJoinerDisagrees(wcfg: Config, st: WriterState, k: Key, i: nat)
    requires WriterInv(Stepper(), wcfg, st) && UpdatesEncoded(st.log) && !IsLive(Project(st.log, k))
    requires i < |Project(st.history, k)| && !Project(st.history, k)[i].event.Remove?
    requires !exists j :: IsOutlived(wcfg, Project(st.history, k), i, j)
    ensures !AllJoinersAgree(Stepper(), wcfg, st, k)
  {
    var hk := Project(st.history, k);
    var now := JustBefore(wcfg, hk[i]);
    var env, d, q := Plain(Stepper(), SINGLE), At(now), OneKey(k, SINGLE, now);
    var src := BatchSamples(wcfg, st, q);
    PlainMayJoin(wcfg, st, SINGLE, k, now);
    NewestLeftHasValue(wcfg, st.history, k, i, now);
    NewestOnlyBatch(Stepper(), wcfg, st, k, now);
    BatchSound(Stepper(), wcfg, st, q);
    BasesOfAttached(env, d, wcfg, st, q);
    StepperIsLawful();
    ReplayReflects(env, d, map[], 0, src, k);
    CurrentIsNewest(st.log, k);
    assert !JoinerAgrees(env, d, q, wcfg, st, k);
  }

  lemma UnsteadyJoinerDisagrees(wcfg: Config, st: WriterState, k: Key)
    requires WriterInv(Stepper(), wcfg, st) && UpdatesEncoded(st.log) && Rising(Project(st.log, k))
    requires !Steady(wcfg, st.log, st.history, k)
    ensures !AllJoinersAgree(Stepper(), wcfg, st, k)
  {
    var p := Project(st.log, k);
    if IsLive(p) {
      var i, j :| 0 <= i < j < |p| && LastFull(p) <= j && p[i] in st.history &&
        !(p[j] in st.history && NotOlder(wcfg, p[i], p[j]));
      LiveJoinerDisagrees(wcfg, st, k, i, j);
    } else {
      var hk := Project(st.history, k);
      var i :| 0 <= i < |hk| && !hk[i].event.Remove? && !exists j :: IsOutlived(wcfg, hk, i, j);
      GoneJoinerDisagrees(wcfg, st, k, i);
    }
  }

  // ----- the exact condition -----

  /** Every run with these actions, whatever the codec and the full values, lets every late joiner agree on the key. */
  ghost predicate AlwaysAgrees(wcfg: Config, acts: seq<Action>, k: Key) {
    forall c: Codec, acts': seq<Action> ::
      c.Lawful() && SameShapes(acts, acts') ==> AllJoinersAgree(c, wcfg, Run(c, wcfg, acts'), k)
  }

  predicate DraftEncoded(a: Action) {
    a.Publish? && a.draft.event.PartialUpdate? ==> a.draft.encoded != []
  }

  ghost predicate DraftsEncoded(acts: seq<Action>) {
    forall i :: 0 <= i < |acts| ==> DraftEncoded(acts[i])
  }

  lemma {:induction false} RunEncoded(c: Codec, cfg: Config, acts: seq<Action>)
    requires DraftsEncoded(acts)
    ensures UpdatesEncoded(Run(c, cfg, acts).log)
  {
    if acts != [] {
      RunEncoded(c, cfg, Front(acts));
      assert DraftEncoded(acts[|acts| - 1]);
    }
  }

  lemma EncodedAlike(acts: seq<Action>, acts': seq<Action>)
    requires SameShapes(acts, acts') && DraftsEncoded(acts)
    ensures DraftsEncoded(acts')
  {
    forall i | 0 <= i < |acts'| ensures DraftEncoded(acts'[i]) {
      assert DraftEncoded(acts[i]) && SameShape(acts[i], acts'[i]);
      if acts[i].Publish? {
        assert Bare(acts[i].draft).event == Bare(acts'[i].draft).event;
        assert Bare(acts[i].draft).encoded == Bare(acts'[i].draft).encoded;
      }
    }
  }

  lemma SteadyAlwaysAgrees(c: Codec, wcfg: Config, acts: seq<Action>, k: Key, c': Codec, acts': seq<Action>)
    requires AdmissibleRun(c, wcfg, acts) && Steady(wcfg, Run(c, wcfg, acts).log, Run(c, wcfg, acts).history, k)
    requires SameShapes(acts, acts')
    ensures AllJoinersAgree(c', wcfg, Run(c', wcfg, acts'), k)
  {
    var st, st' := Run(c, wcfg, acts), Run(c', wcfg, acts');
    RunsAlike(c, c', wcfg, acts, acts');
    RunKeepsInv(c, wcfg, acts);
    RunKeepsInv(c', wcfg, acts');
    SteadyAlike(wcfg, st.log, st'.log, st.history, st'.history, k);
    forall env: ReaderEnv, d: Delivery, q: Query | env.codec == c' && MayJoin(env, d, q, wcfg, st', k)
      ensures JoinerAgrees(env, d, q, wcfg, st', k)
    {
      SteadyJoinerAgrees(env, d, FRESH_READER, wcfg, st', q, k);
    }
  }

  lemma UnsteadyDisagrees(c: Codec, wcfg: Config, acts: seq<Action>, k: Key)
    requires AdmissibleRun(c, wcfg, acts) && DraftsEncoded(acts)
    requires !Steady(wcfg, Run(c, wcfg, acts).log, Run(c, wcfg, acts).history, k)
    ensures !AlwaysAgrees(wcfg, acts, k)
  {
    var acts' := RaisedRun(c, wcfg, acts, k);
    var st, st' := Run(c, wcfg, acts), Run(Stepper(), wcfg, acts');
    RunsAlike(c, Stepper(), wcfg, acts, acts');
    RunKeepsInv(c, wcfg, acts);
    RunKeepsInv(Stepper(), wcfg, acts');
    if Steady(wcfg, st'.log, st'.history, k) {
      SteadyAlike(wcfg, st'.log, st.log, st'.history, st.history, k);
    }
    EncodedAlike(acts, acts');
    RunEncoded(Stepper(), wcfg, acts');
    UnsteadyJoinerDisagrees(wcfg, st', k);
    StepperIsLawful();
  }

  /** After a run, whatever the clock did, every late joiner agrees with the writer on a key, for all codecs and all
      full values, if and only if the key is steady: a condition on the events and times in log and history. */
  lemma JoinersAgreeIffSteady(c: Codec, wcfg: Config, acts: seq<Action>, k: Key)
    requires AdmissibleRun(c, wcfg, acts) && DraftsEncoded(acts)
    ensures AlwaysAgrees(wcfg, acts, k) <==> Steady(wcfg, Run(c, wcfg, acts).log, Run(c, wcfg, acts).history, k)
  {
    if Steady(wcfg, Run(c, wcfg, acts).log, Run(c, wcfg, acts).history, k) {
      forall c': Codec, acts': seq<Action> | c'.Lawful() && SameShapes(acts, acts')
        ensures AllJoinersAgree(c', wcfg, Run(c', wcfg, acts'), k)
      {
        SteadyAlwaysAgrees(c, wcfg, acts, k, c', acts');
      }
    } else {
      UnsteadyDisagrees(c, wcfg, acts, k);
    }
  }
}
