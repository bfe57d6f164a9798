/** KeyDataWriterI: the writer's mutable state and its methods. */
module DataWriter {
  import opened Samples
  import opened History
  import opened PublishLog
  import opened InitBatch
  import opened Agreement
  import opened BatchBuilding

  /** The topic hands out the sample ids of all its writers. */
  class TopicWriter {
    var nextSampleId: nat

    constructor ()
      ensures nextSampleId == 0
    {
      nextSampleId := 0;
    }
  }

  /** The index of a key's base. A single-key writer publishes with a null key and stores its base under it. */
  function Slot(only: Option<Key>, k: Key): Option<Key> {
    if only.Some? then None else Some(k)
  }

  /** The bases of a writer, each under its publish key. */
  ghost function Stored(only: Option<Key>, current: map<Key, Sample>): map<Option<Key>, Sample> {
    if only.None? then map k | k in current :: Some(k) := current[k]
    else if only.value in current then map[None := current[only.value]]
    else map[]
  }

  lemma StoredStep(only: Option<Key>, current: map<Key, Sample>, s: Sample)
    requires only.Some? ==> only.value == s.key
    ensures Stored(only, Rebase(current, s)) ==
      if s.event.Remove? then Stored(only, current) - {Slot(only, s.key)}
      else Stored(only, current)[Slot(only, s.key) := s]
  {
  }

  lemma PublishedState(c: Codec, cfg: Config, st: WriterState, a: Action, r: Sample)
    requires WriterInv(c, cfg, st) && Admissible(st, a)
    requires a.Publish? && ResolveDraft(c, Current(st.log), a.draft) == Some(r)
    ensures
      var s := r.(id := a.id, timestamp := a.now);
      var st' := WriterState(st.log + [s], Append(cfg, st.history, s, a.now));
      Step(c, cfg, st, a) == st' && WriterInv(c, cfg, st')
  {
    StepKeepsInv(c, cfg, st, a);
  }

  /** The stored samples under the slots in `slots` that are bases. */
  ghost function Picked(
    stored: map<Option<Key>, Sample>, slots: set<Option<Key>>, q: Query, covered: set<Key>): set<Sample> {
    set o | o in slots && o in stored && IsBase(q, covered, stored[o]) :: stored[o]
  }

  lemma PickedStep(
    stored: map<Option<Key>, Sample>, slots: set<Option<Key>>, q: Query, covered: set<Key>, o: Option<Key>)
    requires o in stored
    ensures Picked(stored, slots + {o}, q, covered) ==
      Picked(stored, slots, q, covered) + if IsBase(q, covered, stored[o]) then {stored[o]} else {}
  {
  }

  lemma PickedIsStored(
    stored: map<Option<Key>, Sample>, slots: set<Option<Key>>, q: Query, covered: set<Key>, s: Sample)
    returns (o: Option<Key>)
    requires s in Picked(stored, slots, q, covered)
    ensures o in slots && o in stored && stored[o] == s
  {
    o :| o in slots && o in stored && stored[o] == s;
  }

  lemma PickedIsBases(only: Option<Key>, current: map<Key, Sample>, q: Query, covered: set<Key>)
    requires only.Some? ==> current.Keys <= {only.value}
    ensures Picked(Stored(only, current), Stored(only, current).Keys, q, covered) == Bases(current, q, covered)
  {
    var stored := Stored(only, current);
    forall k | k in current && IsBase(q, covered, current[k])
      ensures current[k] in Picked(stored, stored.Keys, q, covered)
    {
      assert Slot(only, k) in stored && stored[Slot(only, k)] == current[k];
    }
    forall o | o in stored && IsBase(q, covered, stored[o])
      ensures stored[o] in Bases(current, q, covered)
    {
      var k := if only.Some? then only.value else o.value;
      assert k in current && stored[o] == current[k];
    }
  }

  lemma {:induction false} CurrentInLog(l: seq<Sample>, k: Key)
    requires k in Current(l)
    ensures Current(l)[k] in l && Current(l)[k].key == k
  {
    CurrentIsNewest(l, k);
    ProjectMembers(l, k, Current(l)[k]);
  }

  lemma SameIdSameSample(l: seq<Sample>, s: Sample, t: Sample)
    requires IdsIncrease(l) && s in l && t in l && s.id == t.id
    ensures s == t
  {
  }

  lemma DistinctBases(l: seq<Sample>, only: Option<Key>, o: Option<Key>, o': Option<Key>)
    requires IdsIncrease(l) && o != o'
    requires o in Stored(only, Current(l)) && o' in Stored(only, Current(l))
    ensures Stored(only, Current(l))[o].id != Stored(only, Current(l))[o'].id
  {
    var s, s' := Stored(only, Current(l))[o], Stored(only, Current(l))[o'];
    CurrentInLog(l, o.value);
    CurrentInLog(l, o'.value);
    if s.id == s'.id {
      SameIdSameSample(l, s, s');
    }
  }

  lemma SourcesMembers(l: seq<Sample>, h: seq<Sample>, q: Query, sources: seq<Sample>, bases: seq<Sample>, s: Sample)
    requires Drawn(h, l) && Rev(sources) == Scanned(h, q)
    requires forall b :: b in bases <==> b in Bases(Current(l), q, KeySet(Scanned(h, q)))
    ensures s in sources + bases <==>
      s in l && s in (set t | t in Scanned(h, q)) + Bases(Current(l), q, KeySet(Scanned(h, q)))
    ensures s in sources ==> s in l && s.key in KeySet(Scanned(h, q))
    ensures s in bases ==> s in l && s.key !in KeySet(Scanned(h, q))
  {
    RevMembers(sources, s);
    if s in sources {
      ScanInHistory(h, q, 0, s);
      var i :| 0 <= i < |Rev(sources)| && Rev(sources)[i] == s;
      assert Rev(sources)[i].key in KeySet(Rev(sources));
    }
    if s in bases {
      var k :| k in Current(l) && Current(l)[k] == s;
      CurrentInLog(l, k);
    }
  }

  lemma ConcatDistinct(l: seq<Sample>, a: seq<Sample>, b: seq<Sample>, covered: set<Key>)
    requires IdsIncrease(l) && DistinctIds(a) && DistinctIds(b)
    requires forall s :: s in a ==> s in l && s.key in covered
    requires forall s :: s in b ==> s in l && s.key !in covered
    ensures DistinctIds(a + b)
  {
    forall i, j | 0 <= i < |a| && 0 <= j < |b| ensures a[i].id != b[j].id {
      assert a[i] in a && b[j] in b;
      if a[i].id == b[j].id {
        SameIdSameSample(l, a[i], b[j]);
      }
    }
  }

  /** Sorting what was collected gives the sources of the batch. */
  lemma SourcesComplete(c: Codec, cfg: Config, st: WriterState, q: Query, sources: seq<Sample>, bases: seq<Sample>)
    requires WriterInv(c, cfg, st)
    requires Rev(sources) == Scanned(HistoryFor(cfg, st, q), q) && DistinctIds(sources)
    requires forall b :: b in bases <==> b in Bases(Current(st.log), q, KeySet(Scanned(HistoryFor(cfg, st, q), q)))
    requires DistinctIds(bases)
    ensures SortById(sources + bases) == Sources(st.log, Scanned(HistoryFor(cfg, st, q), q), q)
  {
    var h, l := HistoryFor(cfg, st, q), st.log;
    HistoryForDrawn(c, cfg, st, q);
    var chosen := (set t | t in Scanned(h, q)) + Bases(Current(l), q, KeySet(Scanned(h, q)));
    forall s
      ensures s in sources + bases <==> s in l && s in chosen
      ensures s in sources ==> s in l && s.key in KeySet(Scanned(h, q))
      ensures s in bases ==> s in l && s.key !in KeySet(Scanned(h, q))
    {
      SourcesMembers(l, h, q, sources, bases, s);
    }
    ConcatDistinct(l, sources, bases, KeySet(Scanned(h, q)));
    SortRestoresLogOrder(l, sources + bases, chosen);
  }

  /** What a publish does, said without the functions that compute it. */
  lemma PublishMeans(c: Codec, cfg: Config, st: WriterState, a: Action)
    requires WriterInv(c, cfg, st) && a.Publish?
    ensures ResolveDraft(c, Current(st.log), a.draft).None? <==> Refused(st.log, a.draft)
    ensures
      var st' := Step(c, cfg, st, a);
      && PublishOutcome(c, st.log, a.draft, a.id, a.now, st'.log)
      && (if Refused(st.log, a.draft) then st' == st
          else st'.log != [] && AppendOutcome(cfg, st.history, Last(st'.log), a.now, st'.history))
  {
    PublishIsResolved(c, cfg, st, a.draft, a.id, a.now);
    if !Refused(st.log, a.draft) {
      var s := ResolveDraft(c, Current(st.log), a.draft).value.(id := a.id, timestamp := a.now);
      AppendMeans(cfg, st.history, s, a.now);
    }
  }

  class KeyDataWriter {
    const topic: TopicWriter
    const codec: Codec
    const config: Config
    const keys: seq<Key>
    const single: bool
    var samples: seq<Sample>
    var lastByKey: map<Option<Key>, Sample>
    /** Everything published so far. */
    ghost var log: seq<Sample>

    ghost function State(): WriterState
      reads this
    {
      WriterState(log, samples)
    }

    /** The key a null publish key stands for. */
    function Only(): Option<Key> {
      if single && |keys| == 1 then Some(keys[0]) else None
    }

    ghost predicate Valid()
      reads this, topic
    {
      WriterInv(codec, config, State()) && Bookkeeping()
    }

    ghost predicate Bookkeeping()
      reads this, topic
    {
      && (single ==> |keys| == 1 && Current(log).Keys <= {keys[0]})
      && lastByKey == Stored(Only(), Current(log))
      && (log != [] ==> Last(log).id <= topic.nextSampleId)
    }

    constructor (topic: TopicWriter, codec: Codec, config: Config, keys: seq<Key>, single: bool)
      requires single ==> |keys| == 1
      ensures Valid() && State() == FRESH
      ensures this.topic == topic && this.codec == codec && this.config == config
      ensures this.keys == keys && this.single == single
    {
      this.topic := topic;
      this.codec := codec;
      this.config := config;
      this.keys := keys;
      this.single := single;
      samples := [];
      lastByKey := map[];
      log := [];
      new;
      RunKeepsInv(codec, config, []);
    }

    /** The sample with its key: a null publish key stands for the writer's only key. */
    function Keyed(key: Option<Key>, draft: DraftSample): DraftSample {
      if key.Some? then draft.(key := key.value) else if keys != [] then draft.(key := keys[0]) else draft
    }

    /** Publishes a sample with its publish key. Fails, without any effect, for a partial update of a key that has no
        value. The clock may give any time, before or after earlier ones. */
    method Publish(key: Option<Key>, draft: DraftSample, now: int) returns (ok: bool)
      requires Valid()
      requires key.None? <==> single
      modifies this, topic
      ensures Valid()
      ensures ok <==> !Refused(old(log), Keyed(key, draft))
      ensures PublishOutcome(codec, old(log), Keyed(key, draft), old(topic.nextSampleId) + 1, now, log)
      ensures if ok then log != [] && AppendOutcome(config, old(samples), Last(log), now, samples)
        else State() == old(State())
      ensures
        && topic.nextSampleId == old(topic.nextSampleId) + (if ok then 1 else 0)
        && State() == Step(codec, config, old(State()),
          Action.Publish(Keyed(key, draft), old(topic.nextSampleId) + 1, now))
    {
      ghost var action := Action.Publish(Keyed(key, draft), topic.nextSampleId + 1, now);
      var resolved := ResolveSample(key, draft);
      PublishMeans(codec, config, State(), action);
      if resolved.None? {
        return false;
      }
      PublishedState(codec, config, State(), action, resolved.value);
      Record(key, resolved.value, now);
      ok := true;
    }

    /** The sample with its key and, for a partial update, its value. */
    method ResolveSample(key: Option<Key>, draft: DraftSample) returns (resolved: Option<Sample>)
      requires Valid()
      requires key.None? <==> single
      ensures resolved == ResolveDraft(codec, Current(log), Keyed(key, draft))
      ensures resolved.Some? ==> key == Slot(Only(), resolved.value.key) && (single ==> resolved.value.key == keys[0])
    {
      var s: Sample := Keyed(key, draft);
      if draft.event.PartialUpdate? {
        if key !in lastByKey || lastByKey[key].value.None? {
          return None;
        }
        s := ApplyUpdate(codec, lastByKey[key], s);
      }
      return Some(s);
    }

    /** Numbers and dates a resolved sample, and records it as its key's base and in the history. */
    method Record(key: Option<Key>, resolved: Sample, now: int)
      requires Bookkeeping() && key == Slot(Only(), resolved.key) && (single ==> resolved.key == keys[0])
      modifies this, topic
      ensures Bookkeeping() && topic.nextSampleId == old(topic.nextSampleId) + 1
      ensures var s := resolved.(id := topic.nextSampleId, timestamp := now);
        State() == WriterState(old(log) + [s], Append(config, old(samples), s, now))
    {
      topic.nextSampleId := topic.nextSampleId + 1;
      var s := resolved.(id := topic.nextSampleId, timestamp := now);
      RecordBase(key, s);
      AppendSample(s, now);
    }

    method RecordBase(key: Option<Key>, s: Sample)
      requires lastByKey == Stored(Only(), Current(log)) && key == Slot(Only(), s.key)
      requires Only().Some? ==> Only().value == s.key
      modifies this`lastByKey, this`log
      ensures log == old(log) + [s] && lastByKey == Stored(Only(), Current(log))
      ensures Current(log) == Rebase(Current(old(log)), s)
    {
      StoredStep(Only(), Current(log), s);
      assert Current(log + [s]) == Rebase(Current(log), s) by {
        assert Front(log + [s]) == log;
      }
      lastByKey := if s.event.Remove? then lastByKey - {key} else lastByKey[key := s];
      log := log + [s];
    }

    /** The history part of publish. */
    method AppendSample(s: Sample, now: int)
      modifies this`samples
      ensures samples == Append(config, old(samples), s, now)
    {
      if config.HasLifetime() {
        samples := CleanOld(samples, config.StaleTime(now));
      }
      if config.sampleCount.Some? {
        if config.sampleCount.value > 0 {
          if |samples| + 1 > config.sampleCount.value {
            samples := samples[1..];
          }
        } else if config.sampleCount.value == 0 {
          return;
        }
      }
      if config.Clears(s.event) {
        samples := [];
      }
      samples := samples + [s];
    }

    /** Collects the bases in the map's own order, which is not specified. */
    method CollectBases(q: Query, covered: set<Key>) returns (bases: seq<Sample>)
      requires Valid()
      ensures forall s :: s in bases <==> s in Bases(Current(log), q, covered)
      ensures DistinctIds(bases)
    {
      bases := [];
      var todo := lastByKey.Keys;
      while todo != {}
        invariant todo <= lastByKey.Keys
        invariant forall s :: s in bases <==> s in Picked(lastByKey, lastByKey.Keys - todo, q, covered)
        invariant DistinctIds(bases)
        decreases todo
      {
        var o :| o in todo;
        var base := lastByKey[o];
        PickedStep(lastByKey, lastByKey.Keys - todo, q, covered, o);
        assert lastByKey.Keys - (todo - {o}) == (lastByKey.Keys - todo) + {o};
        if !(base.id <= q.lastId || base.value.None? || (q.key.Some? && q.key.value != base.key) ||
             base.key in covered || !q.filter(base)) {
          forall i | 0 <= i < |bases| ensures bases[i].id != base.id {
            assert bases[i] in bases;
            var o' := PickedIsStored(lastByKey, lastByKey.Keys - todo, q, covered, bases[i]);
            DistinctBases(log, Only(), o', o);
          }
          bases := bases + [base];
        }
        todo := todo - {o};
      }
      PickedIsBases(Only(), Current(log), q, covered);
    }

    /** Builds the initialization batch for a reader that attaches. */
    method GetSamples(q: Query) returns (batch: seq<DataSample>)
      requires Valid()
      modifies this`samples
      ensures Valid() && log == old(log)
      ensures samples == HistoryFor(config, old(State()), q)
      ensures samples == if q.config.sampleCount == Some(0) then old(samples) else Young(config, old(samples), q.now)
      ensures AllSound(BatchSamples(config, old(State()), q))
      ensures batch == Batch(codec, config, old(State()), q)
      ensures AllAskedFor(BatchSamples(config, old(State()), q), q)
      ensures forall k :: NeedsBase(log, q, k) ==> k in KeySet(BatchSamples(config, old(State()), q))
      ensures forall i :: 0 <= i < |batch| ==>
        Delivers(codec, BatchSamples(config, old(State()), q), i, batch[i])
    {
      BatchSound(codec, config, State(), q);
      BatchPasses(codec, config, State(), q);
      ReapIsYoung(config, samples, q.now);
      ghost var src := BatchSamples(config, State(), q);
      forall i | 0 <= i < |src| ensures Delivers(codec, src, i, Deliver(codec, src)[i]) {
        DeliveredForm(codec, src, i);
      }
      var sources := CollectSources(q);
      var capped := CapBatch(q.config, SortById(sources));
      batch := DeliverBatch(codec, capped);
    }

    /** Reaps the history, scans it, and adds the bases the scan does not cover. */
    method CollectSources(q: Query) returns (sources: seq<Sample>)
      requires Valid()
      modifies this`samples
      ensures Valid() && log == old(log)
      ensures samples == HistoryFor(config, old(State()), q)
      ensures SortById(sources) == Sources(log, Scanned(HistoryFor(config, old(State()), q), q), q)
    {
      ghost var before := State();
      sources := [];
      var covered: set<Key> := {};
      if !q.config.KeepsNoHistory() {
        ReapHistory(q.now);
        HistoryForDrawn(codec, config, before, q);
        sources, covered := ScanHistory(samples, q);
      }
      var bases := CollectBases(q, covered);
      SourcesComplete(codec, config, before, q, sources, bases);
      sources := sources + bases;
    }

    method ReapHistory(now: int)
      requires Valid()
      modifies this`samples
      ensures Valid() && samples == Reap(config, old(samples), now)
    {
      ReapKeepsInv(codec, config, State(), now);
      if config.HasLifetime() {
        samples := CleanOld(samples, config.StaleTime(now));
      }
    }
  }
}
