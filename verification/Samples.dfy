/** Samples, their wire form, and the configuration of readers and writers. */
module Samples {
  datatype Option<+T> = None | Some(value: T)

  type Byte = i: int | 0 <= i < 256
  type Bytes = seq<Byte>

  /** The identity of an interned key. */
  type Key = int

  /** An application value. Values are only compared, so any type with equality would do. */
  type Value = int

  /** The id of an interned update tag; 0 when the sample carries none. */
  type Tag = int

  datatype Event = Add | Update | PartialUpdate | Remove

  /** The application's encoder, decoder and updaters. The updater decodes its own update bytes. */
  datatype Codec = Codec(encode: Value -> Bytes, decode: Bytes -> Value, apply: (Tag, Value, Bytes) -> Value)
  {
    ghost predicate Lawful() {
      forall v :: decode(encode(v)) == v
    }
  }

  /** `encoded` holds the update bytes of a partial update, or the bytes of a received sample not decoded yet.
      Times are in microseconds, the resolution of the wire format. */
  datatype Sample = Sample(
    id: int, event: Event, key: Key, tag: Tag, timestamp: int, encoded: Bytes, value: Option<Value>)

  datatype DataSample = DataSample(id: int, key: Key, timestamp: int, tag: Tag, event: Event, value: Bytes)

  /** The bytes of the sample's own value; a remove carries none. */
  function EncodeValue(c: Codec, s: Sample): Bytes
    requires !s.event.Remove? ==> s.value.Some?
  {
    if s.event.Remove? then [] else c.encode(s.value.value)
  }

  /** The bytes sent for a sample. An empty buffer means "not encoded yet", whatever the event. */
  function Encode(c: Codec, s: Sample): Bytes
    requires !s.event.Remove? ==> s.value.Some?
  {
    if s.encoded == [] then EncodeValue(c, s) else s.encoded
  }

  function ToWire(c: Codec, s: Sample): DataSample
    requires !s.event.Remove? ==> s.value.Some?
  {
    DataSample(s.id, s.key, s.timestamp, s.tag, s.event, Encode(c, s))
  }

  /** A partial update sent as the full value it resolved to. */
  function ToFullWire(c: Codec, s: Sample): DataSample
    requires !s.event.Remove? ==> s.value.Some?
  {
    ToWire(c, s).(tag := 0, event := Update, value := EncodeValue(c, s))
  }

  /** The sample a session builds from the wire form: nothing is decoded yet. */
  function FromWire(d: DataSample): Sample {
    Sample(d.id, d.event, d.key, d.tag, d.timestamp, d.value, None)
  }

  function Decode(c: Codec, s: Sample): Sample {
    if s.event.Remove? then s else s.(value := Some(c.decode(s.encoded)), encoded := [])
  }

  /** The updater closure: apply the update to a copy of the previous value and store the result in `next`. */
  function ApplyUpdate(c: Codec, previous: Sample, next: Sample): Sample
    requires previous.value.Some?
  {
    next.(value := Some(c.apply(next.tag, previous.value.value, next.encoded)))
  }

  datatype ClearPolicy = OnAdd | OnRemove | OnAll | OnAllExceptPartialUpdate | Never

  datatype Config = Config(sampleCount: Option<int>, sampleLifetime: Option<int>, clearHistory: Option<ClearPolicy>)
  {
    predicate KeepsNoHistory() {
      sampleCount == Some(0)
    }

    predicate Bounded() {
      sampleCount.Some? && sampleCount.value > 0
    }

    predicate HasLifetime() {
      sampleLifetime.Some? && sampleLifetime.value > 0
    }

    /** Samples older than this are stale at time `now`; the lifetime is in milliseconds. */
    function StaleTime(now: int): int
      requires HasLifetime()
    {
      now - 1000 * sampleLifetime.value
    }

    predicate Clears(event: Event) {
      && clearHistory.Some?
      && (|| clearHistory.value.OnAll?
          || (event.Add? && clearHistory.value.OnAdd?)
          || (event.Remove? && clearHistory.value.OnRemove?)
          || (!event.PartialUpdate? && clearHistory.value.OnAllExceptPartialUpdate?))
    }
  }
}
