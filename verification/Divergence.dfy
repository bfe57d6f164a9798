/** Where the agreement fails, and the exact conditions that exclude it. */
module Divergence {
  import opened Samples
  import opened PublishLog
  import opened InitBatch
  import opened Reader
  import opened Agreement

  // ----- an empty update encoding -----

  /** The value a reader that holds `v` computes from the writer's partial update `u` of a key that holds `v`. */
  function ReadBack(c: Codec, v: Value, tag: Tag, u: Bytes): Option<Value> {
    var base := Sample(1, Update, 0, 0, 1, [], Some(v));
    var sent := ApplyUpdate(c, base, Sample(2, PartialUpdate, 0, tag, 2, u, None));
    var got := Resolve(c, map[0 := base], FromWire(ToWire(c, sent)));
    if got.Some? then got.value.value else None
  }

  ghost predicate ReadsBack(c: Codec, v: Value, tag: Tag, u: Bytes) {
    ReadBack(c, v, tag, u) == Some(c.apply(tag, v, u))
  }

  function Unary(v: Value): Bytes {
    if v >= 0 then seq(v + 1, _ => 0) else seq(-v, _ => 1)
  }

  /** A counter: an empty update increments it, any other leaves it alone. */
  function Counter(): Codec {
    Codec(Unary, (b: Bytes) => if b == [] then 0 else if b[0] == 0 then |b| - 1 else -|b|,
          (_, v, u) => if u == [] then v + 1 else v)
  }

  lemma CounterIsLawful()
    ensures Counter().Lawful()
  {
  }

  /** The reader computes the writer's value, whatever the codec and the current value, exactly when the update was
      encoded to at least one byte: an empty buffer is taken for "not encoded yet" and the full value is sent as if it
      were the update. */
  lemma UpdateReadsBackIffEncoded(tag: Tag, u: Bytes)
    ensures (forall c: Codec, v: Value :: c.Lawful() ==> ReadsBack(c, v, tag, u)) <==> u != []
  {
    if u == [] {
      CounterIsLawful();
      assert !ReadsBack(Counter(), 0, tag, u);
    }
  }

  // ----- a codec whose updates increment -----

  /** Every update increments the value. */
  function Stepper(): Codec {
    Codec(Unary, (b: Bytes) => if b == [] then 0 else if b[0] == 0 then |b| - 1 else -|b|, (_, v, _) => v + 1)
  }

  lemma StepperIsLawful()
    ensures Stepper().Lawful()
  {
  }

  const UNLIMITED := Config(None, None, None)

  function AllKeys(cfg: Config, lastId: int, now: int): Query {
    Query(None, _ => true, cfg, lastId, now)
  }

  function Plain(c: Codec, cfg: Config): ReaderEnv {
    ReaderEnv(c, cfg, NoDiscard, _ => true)
  }

  function At(now: int): Delivery {
    Delivery(false, _ => false, now)
  }

  const ADDED := Sample(1, Add, 7, 0, 5000, [], Some(10))
  const ADD_DRAFT: DraftSample := ADDED.(id := 0, timestamp := 0)

  // ----- resuming after a trimmed remove -----

  const NO_HISTORY := Config(Some(0), None, None)

  /** A reader that resumes after a remove its writer no longer holds keeps the removed value. */
  lemma TrimmedRemoveLeavesStaleBase()
    ensures
      var st := Run(Stepper(), NO_HISTORY,
        [Publish(ADD_DRAFT, 1, 5000), Publish(Sample(0, Remove, 7, 0, 0, [], None), 2, 6000)]);
      var q := AllKeys(UNLIMITED, 1, 7000);
      var r := FRESH_READER.(bases := map[7 := ADDED]);
      && AgreeOn(7, r.bases, Current(st.log[..1]))
      && AllSound(BatchSamples(NO_HISTORY, st, q))
      && !AgreeOn(7, Attached(Plain(Stepper(), UNLIMITED), At(7000), r, NO_HISTORY, st, q).bases, Current(st.log))
  {
    var c, cfg, gone := Stepper(), NO_HISTORY, Sample(2, Remove, 7, 0, 6000, [], None);
    var acts := [Publish(ADD_DRAFT, 1, 5000), Publish(Sample(0, Remove, 7, 0, 0, [], None), 2, 6000)];
    assert Front(acts) == acts[..1] && Front(acts[..1]) == [];
    assert Run(c, cfg, acts[..1]) == WriterState([ADDED], []);
    var st := Run(c, cfg, acts);
    assert st == WriterState([ADDED, gone], []);
    assert Front(st.log) == [ADDED] && Front([ADDED]) == [] && st.log[..1] == [ADDED];
    assert Current([ADDED]) == map[7 := ADDED];
    assert Current(st.log) == map[];
    var q := AllKeys(UNLIMITED, 1, 7000);
    assert KeySet([]) == {};
    KeepTail(st.log, {}, 2);
    assert (set s: Sample | s in []) + Bases(Current(st.log), q, {}) == {};
    assert BatchSamples(NO_HISTORY, st, q) == [];
  }
}
