/** DataReaderI: the reader's mutable state and its methods. */
module DataReader {
  import opened Samples
  import opened History
  import opened PublishLog
  import opened Reader
  import opened ReaderSteps

  class DataReader {
    const env: ReaderEnv
    var lastByKey: map<Key, Sample>
    var samples: seq<Sample>
    var lastSendTime: int
    var calls: seq<Sample>

    ghost function State(): ReaderState
      reads this
    {
      ReaderState(lastByKey, samples, lastSendTime, calls)
    }

    ghost predicate Valid()
      reads this
    {
      ReaderInv(env, State())
    }

    constructor (env: ReaderEnv)
      ensures Valid() && this.env == env && State() == FRESH_READER
    {
      this.env := env;
      lastByKey := map[];
      samples := [];
      lastSendTime := 0;
      calls := [];
    }

    method GetAllUnread() returns (unread: seq<Sample>)
      requires Valid()
      modifies this
      ensures Valid()
      ensures unread == old(samples) && State() == Apply(env, old(State()), Op.GetAllUnread)
    {
      unread := samples;
      samples := [];
    }

    /** The source waits until a sample is there. */
    method GetNextUnread() returns (sample: Sample)
      requires Valid() && samples != []
      modifies this
      ensures Valid()
      ensures [sample] + samples == old(samples) && State() == Apply(env, old(State()), Op.GetNextUnread)
    {
      sample := samples[0];
      samples := samples[1..];
    }

    /** `got` is what the application receives, if anything. */
    method Queue(sample: Sample, d: Delivery) returns (ghost got: Option<Sample>)
      requires Valid()
      modifies this
      ensures Valid()
      ensures State() == Reader.Queue(env, d, old(State()), sample)
      ensures QueueOutcome(env, d, old(State()), sample, State(), got)
    {
      ghost var before := State();
      got := QueueMeans(env, d, before, sample);
      ApplyKeepsInv(env, before, QueueOp(d, sample));
      if d.checkKey && !env.matchKey(sample.key) {
        return;
      }

      if (env.policy.SendTime? && sample.timestamp <= lastSendTime)
        || (env.policy.Priority? && d.outranked(sample.key))
      {
        if !sample.event.PartialUpdate? && !sample.event.Remove? && sample.key !in lastByKey {
          var base := if sample.value.None? then Decode(env.codec, sample) else sample;
          lastByKey := lastByKey[sample.key := base];
        }
        return;
      }

      var s := sample;
      if s.value.None? {
        if s.event.PartialUpdate? {
          if s.key !in lastByKey || lastByKey[s.key].value.None? {
            return;
          }
          s := ApplyUpdate(env.codec, lastByKey[s.key], s);
        } else if !s.event.Remove? {
          s := Decode(env.codec, s);
        }
      }
      lastSendTime := s.timestamp;
      lastByKey := if s.event.Remove? then lastByKey - {s.key} else lastByKey[s.key := s];
      calls := calls + [s];

      AppendSample(s, d.now);
    }

    /** The history part of queue. */
    method AppendSample(s: Sample, now: int)
      requires env.config.Bounded() ==> |samples| <= env.config.sampleCount.value
      modifies this`samples
      ensures samples == Append(env.config, old(samples), s, now)
    {
      if env.config.HasLifetime() {
        samples := CleanOld(samples, env.config.StaleTime(now));
      }
      if env.config.sampleCount.Some? {
        if env.config.sampleCount.value > 0 {
          if |samples| + 1 > env.config.sampleCount.value {
            if samples != [] {
              samples := samples[1..];
            }
            assert |samples| + 1 == env.config.sampleCount.value;
          }
        } else if env.config.sampleCount.value == 0 {
          return;
        }
      }
      if env.config.Clears(s.event) {
        samples := [];
      }
      samples := samples + [s];
    }

    /** `got` is what the application receives. */
    method InitSamples(incoming: seq<Sample>, d: Delivery) returns (ghost got: seq<Sample>)
      requires Valid()
      modifies this
      ensures Valid()
      ensures State() == Init(env, d, old(State()), incoming)
      ensures InitOutcome(env, d, old(State()), incoming, State(), got)
    {
      got := InitMeans(env, d, State(), incoming);
      ApplyKeepsInv(env, State(), InitOp(d, incoming));
      var previousByKey, valid := ResolveBatch(incoming, d);
      calls := calls + valid;
      lastByKey := previousByKey;
      if valid == [] {
        return;
      }
      lastSendTime := Last(valid).timestamp;
      LoadHistory(valid, d.now);
    }

    /** The first loop of initSamples. */
    method ResolveBatch(incoming: seq<Sample>, d: Delivery)
      returns (previousByKey: map<Key, Sample>, valid: seq<Sample>)
      ensures BatchReceipt(previousByKey, valid) == ReceiveAll(env, d, lastByKey, lastSendTime, incoming)
    {
      valid := [];
      previousByKey := lastByKey;
      for i := 0 to |incoming|
        invariant ReceiveAll(env, d, lastByKey, lastSendTime, incoming[..i]) == BatchReceipt(previousByKey, valid)
      {
        previousByKey, valid := ReceiveOne(incoming[i], d, previousByKey, valid);
        assert Front(incoming[..i + 1]) == incoming[..i];
      }
      assert incoming[..|incoming|] == incoming;
    }

    /** The history part of initSamples. */
    method LoadHistory(valid: seq<Sample>, now: int)
      requires valid != []
      modifies this`samples
      ensures samples == InitHistory(env.config, old(samples), valid, now)
      ensures !env.config.KeepsNoHistory() ==> samples != []
    {
      if env.config.HasLifetime() {
        samples := CleanOld(samples, env.config.StaleTime(now));
      }
      if env.config.KeepsNoHistory() {
        return;
      }
      samples := AppendBatch(valid);
      if env.config.Bounded() {
        TrimToCount();
      }
      assert samples != [];
    }

    /** The last loop of initSamples. */
    method TrimToCount()
      requires env.config.Bounded()
      modifies this`samples
      ensures samples == Newest(env.config, old(samples))
    {
      var maxCount := env.config.sampleCount.value;
      while |samples| > maxCount
        invariant |samples| <= |old(samples)| && samples == old(samples)[|old(samples)| - |samples|..]
        invariant |samples| >= maxCount || samples == old(samples)
      {
        samples := samples[1..];
      }
    }

    /** One turn of that first loop. */
    method ReceiveOne(sample: Sample, d: Delivery, previous: map<Key, Sample>, valid: seq<Sample>)
      returns (previous': map<Key, Sample>, valid': seq<Sample>)
      ensures var r := Receive(env, d, previous, lastSendTime, sample);
        previous' == r.bases && valid' == valid + if r.sample.Some? then [r.sample.value] else []
    {
      previous', valid' := previous, valid;
      if d.checkKey && !env.matchKey(sample.key) {
        return;
      }
      if (env.policy.SendTime? && sample.timestamp <= lastSendTime)
        || (env.policy.Priority? && d.outranked(sample.key))
      {
        if !sample.event.PartialUpdate? && !sample.event.Remove? && sample.key !in previous {
          var base := if sample.value.None? then Decode(env.codec, sample) else sample;
          previous' := previous[sample.key := base];
        }
        return;
      }
      var s := sample;
      if s.value.None? {
        if s.event.PartialUpdate? {
          if s.key !in previous || previous[s.key].value.None? {
            return;
          }
          s := ApplyUpdate(env.codec, previous[s.key], s);
        } else if !s.event.Remove? {
          s := Decode(env.codec, s);
        }
      }
      valid' := valid + [s];
      previous' := if s.event.Remove? then previous - {s.key} else previous[s.key := s];
    }

    /** The history after the batch, before trimming. */
    method AppendBatch(valid: seq<Sample>) returns (history: seq<Sample>)
      requires valid != []
      ensures history ==
        if env.config.clearHistory == Some(OnAll) then [Last(valid)] else PushAll(env.config, samples, valid)
      ensures history != []
    {
      if env.config.clearHistory == Some(OnAll) {
        history := [Last(valid)];
      } else {
        history := samples;
        for i := 0 to |valid|
          invariant history == PushAll(env.config, samples, valid[..i])
        {
          assert Front(valid[..i + 1]) == valid[..i];
          if env.config.Clears(valid[i].event) {
            history := [];
          }
          history := history + [valid[i]];
        }
        assert valid[..|valid|] == valid;
      }
    }
  }
}
