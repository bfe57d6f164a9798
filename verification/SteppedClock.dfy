/** Two runs in which the clock of a writer with a lifetime steps back. */
module SteppedClock {
  import opened Samples
  import opened History
  import opened PublishLog
  import opened InitBatch
  import opened Reader
  import opened Agreement
  import opened Divergence
  import opened ExactAgreement

  const ONE_MILLISECOND := Config(None, Some(1), None)
  const UPDATE_DRAFT: DraftSample := Sample(0, PartialUpdate, 7, 1, 0, [1], None)

  /** Ids counted from 1 are admissible. */
  lemma {:induction false} NumberedIsAdmissible(c: Codec, cfg: Config, acts: seq<Action>)
    requires forall i :: 0 <= i < |acts| ==> acts[i].Publish? && acts[i].id == i + 1
    ensures AdmissibleRun(c, cfg, acts)
    ensures Run(c, cfg, acts).log != [] ==> Last(Run(c, cfg, acts).log).id <= |acts|
  {
    if acts != [] {
      NumberedIsAdmissible(c, cfg, Front(acts));
      AdmissibleSnoc(c, cfg, acts);
    }
  }

  lemma NumberedKeepsInv(cfg: Config, acts: seq<Action>)
    requires forall i :: 0 <= i < |acts| ==> acts[i].Publish? && acts[i].id == i + 1
    ensures WriterInv(Stepper(), cfg, Run(Stepper(), cfg, acts))
  {
    NumberedIsAdmissible(Stepper(), cfg, acts);
    RunKeepsInv(Stepper(), cfg, acts);
  }

  lemma {:induction false} ProjectWhole(l: seq<Sample>, k: Key)
    requires forall i :: 0 <= i < |l| ==> l[i].key == k
    ensures Project(l, k) == l
  {
    if l != [] {
      ProjectWhole(Front(l), k);
    }
  }

  /** A reader of the only key, without limits, gets all that is left of the history. */
  lemma OnlyKeyBatch(cfg: Config, st: WriterState, k: Key, now: int)
    requires WriterInv(Stepper(), cfg, st) && Reap(cfg, st.history, now) != []
    requires forall i :: 0 <= i < |st.log| ==> st.log[i].key == k
    ensures BatchSamples(cfg, st, OneKey(k, UNLIMITED, now)) == Reap(cfg, st.history, now)
  {
    var q, h := OneKey(k, UNLIMITED, now), Reap(cfg, st.history, now);
    var src := BatchSamples(cfg, st, q);
    ReapDrawn(cfg, st.history, st.log, now);
    ProjectWhole(h, k);
    WholeKeyBatch(Stepper(), cfg, st, k, now);
    forall i | 0 <= i < |src| ensures src[i].key == k {
      ChosenInLog(st.log, HistoryFor(cfg, st, q), q, src[i]);
    }
    ProjectWhole(src, k);
  }

  /** A reader of key `k` without limits joins at `now` and ends with `mine`, while the writer holds `theirs`. */
  ghost predicate EndsWith(cfg: Config, st: WriterState, k: Key, now: int, mine: Value, theirs: Value) {
    var env, q := Plain(Stepper(), UNLIMITED), OneKey(k, UNLIMITED, now);
    && MayJoin(env, At(now), q, cfg, st, k)
    && AllSound(BatchSamples(cfg, st, q))
    && var bases := Attached(env, At(now), FRESH_READER, cfg, st, q).bases;
      && k in bases && bases[k].value == Some(mine)
      && k in Current(st.log) && Current(st.log)[k].value == Some(theirs)
  }

  lemma EndsElsewhere(cfg: Config, st: WriterState, k: Key, now: int, mine: Value, theirs: Value)
    requires EndsWith(cfg, st, k, now, mine, theirs) && mine != theirs
    ensures !AllJoinersAgree(Stepper(), cfg, st, k)
  {
    assert !JoinerAgrees(Plain(Stepper(), UNLIMITED), At(now), OneKey(k, UNLIMITED, now), cfg, st, k);
  }

  ghost predicate ReplaysTo(src: seq<Sample>, k: Key, now: int, mine: Value) {
    && AllSound(src)
    && var bases := Replay(Plain(Stepper(), UNLIMITED), At(now), map[], 0, src).bases;
      k in bases && bases[k].value == Some(mine)
  }

  /** A writer of one key: the joiner ends with what the replay of the reaped history gives. */
  lemma JoinerEnds(cfg: Config, st: WriterState, src: seq<Sample>, k: Key, now: int, mine: Value)
    requires WriterInv(Stepper(), cfg, st) && UpdatesEncoded(st.log)
    requires forall i :: 0 <= i < |st.log| ==> st.log[i].key == k
    requires st.log != [] && !Last(st.log).event.Remove? && Last(st.log).value.Some?
    requires src != [] && Reap(cfg, st.history, now) == src && ReplaysTo(src, k, now, mine)
    ensures EndsWith(cfg, st, k, now, mine, Last(st.log).value.value)
  {
    OnlyKeyBatch(cfg, st, k, now);
    PlainMayJoin(cfg, st, UNLIMITED, k, now);
    BasesOfAttached(Plain(Stepper(), UNLIMITED), At(now), cfg, st, OneKey(k, UNLIMITED, now));
    ProjectWhole(st.log, k);
    CurrentIsNewest(st.log, k);
  }

  lemma FullReplaysTo(s: Sample, now: int)
    requires Sound(s) && (s.event.Add? || s.event.Update?)
    ensures s.value.Some? && ReplaysTo([s], s.key, now, s.value.value)
  {
    var env := Plain(Stepper(), UNLIMITED);
    assert Front([s]) == [];
    ReplaySnoc(env, At(now), map[], 0, [s]);
    ReceiveSteps(env, At(now), 0, map[], [], s);
  }

  lemma UpdateReplaysTo(s: Sample, u: Sample, now: int)
    requires Sound(s) && (s.event.Add? || s.event.Update?)
    requires Sound(u) && u.event.PartialUpdate? && u.encoded != [] && u.key == s.key
    ensures s.value.Some? && ReplaysTo([s, u], s.key, now, s.value.value + 1)
  {
    var env := Plain(Stepper(), UNLIMITED);
    FullReplaysTo(s, now);
    assert Front([s, u]) == [s] && [s][0].key in KeySet([s]);
    ReplaySnoc(env, At(now), map[], 0, [s, u]);
    ReceiveSteps(env, At(now), 0, Replay(env, At(now), map[], 0, [s]).bases, [s], u);
  }

  /** A writer adds a key and updates it twice; the clock steps back for the first update only. */
  const STEP_BACK := [Publish(ADD_DRAFT, 1, 5000), Publish(UPDATE_DRAFT, 2, 3000), Publish(UPDATE_DRAFT, 3, 5001)]

  function Updated(id: int, now: int, v: Value): Sample {
    Sample(id, PartialUpdate, 7, 1, now, [1], Some(v))
  }

  const WHOLE := [ADDED, Updated(2, 3000, 11), Updated(3, 5001, 12)]
  const HOLED := [ADDED, Updated(3, 5001, 12)]

  const AFTER_FIRST := WriterState([ADDED], [ADDED])
  const AFTER_SECOND := WriterState([ADDED, Updated(2, 3000, 11)], [ADDED, Updated(2, 3000, 11)])
  const AFTER_THIRD := WriterState(WHOLE, HOLED)

  lemma FirstPublished()
    ensures Run(Stepper(), ONE_MILLISECOND, STEP_BACK[..1]) == AFTER_FIRST
    ensures Current(AFTER_FIRST.log) == map[7 := ADDED]
  {
    assert Front(STEP_BACK[..1]) == [] && Front([ADDED]) == [];
  }

  lemma SecondPublished()
    ensures Run(Stepper(), ONE_MILLISECOND, STEP_BACK[..2]) == AFTER_SECOND
    ensures Current(AFTER_SECOND.log) == map[7 := Updated(2, 3000, 11)]
  {
    FirstPublished();
    assert Front(STEP_BACK[..2]) == STEP_BACK[..1];
    CleanOldKeepsAll([ADDED], 2000);
    assert Front(AFTER_SECOND.log) == [ADDED];
  }

  lemma SecondReaped()
    ensures CleanOld(AFTER_SECOND.history, 4001) == [ADDED]
  {
    assert AFTER_SECOND.history == [ADDED] + [Updated(2, 3000, 11)];
    assert [Updated(2, 3000, 11)][1..] == [];
    CleanOldConcat([ADDED], [Updated(2, 3000, 11)], 4001);
    CleanOldKeepsAll([ADDED], 4001);
  }

  lemma ThirdPublished()
    ensures Step(Stepper(), ONE_MILLISECOND, AFTER_SECOND, STEP_BACK[2]) == AFTER_THIRD
  {
    SecondPublished();
    SecondReaped();
  }

  lemma StepBackRun()
    ensures Run(Stepper(), ONE_MILLISECOND, STEP_BACK) == AFTER_THIRD
  {
    SecondPublished();
    ThirdPublished();
    assert Front(STEP_BACK) == STEP_BACK[..2];
  }

  lemma StepBackInv()
    ensures WriterInv(Stepper(), ONE_MILLISECOND, AFTER_THIRD)
  {
    StepBackRun();
    NumberedKeepsInv(ONE_MILLISECOND, STEP_BACK);
  }

  lemma HoledReplay()
    ensures Reap(ONE_MILLISECOND, HOLED, 5001) == HOLED && ReplaysTo(HOLED, 7, 5001, 11)
  {
    CleanOldKeepsAll(HOLED, 4001);
    UpdateReplaysTo(ADDED, Updated(3, 5001, 12), 5001);
  }

  lemma StepBackJoin()
    ensures EndsWith(ONE_MILLISECOND, AFTER_THIRD, 7, 5001, 11, 12)
  {
    StepBackInv();
    HoledReplay();
    JoinerEnds(ONE_MILLISECOND, AFTER_THIRD, HOLED, 7, 5001, 11);
  }

  /** The reap of the third publish takes a partial update from the middle of the history: a late joiner applies the
      next one to the wrong value, and ends with 11 where the writer has 12. */
  lemma SteppedBackClockDiverges()
    ensures EndsWith(ONE_MILLISECOND, Run(Stepper(), ONE_MILLISECOND, STEP_BACK), 7, 5001, 11, 12)
    ensures !AllJoinersAgree(Stepper(), ONE_MILLISECOND, Run(Stepper(), ONE_MILLISECOND, STEP_BACK), 7)
  {
    StepBackRun();
    StepBackJoin();
    EndsElsewhere(ONE_MILLISECOND, AFTER_THIRD, 7, 5001, 11, 12);
  }

  // ----- full values alone -----

  const UPDATED_DRAFT: DraftSample := Sample(0, Update, 7, 0, 0, [], Some(20))
  const UPDATED := Sample(2, Update, 7, 0, 3000, [], Some(20))

  /** The writer adds the key and then, its clock having stepped back, gives it another value. */
  const OVERTAKEN := [Publish(ADD_DRAFT, 1, 5000), Publish(UPDATED_DRAFT, 2, 3000)]

  const BOTH := [ADDED, UPDATED]
  const AFTER_BOTH := WriterState(BOTH, BOTH)

  lemma OvertakenRun()
    ensures Run(Stepper(), ONE_MILLISECOND, OVERTAKEN) == AFTER_BOTH
  {
    FirstPublished();
    assert OVERTAKEN[..1] == STEP_BACK[..1] && Front(OVERTAKEN) == OVERTAKEN[..1];
    CleanOldKeepsAll([ADDED], 2000);
  }

  lemma BothReaped()
    ensures CleanOld(BOTH, 4001) == [ADDED]
  {
    assert BOTH == [ADDED] + [UPDATED] && [UPDATED][1..] == [];
    CleanOldConcat([ADDED], [UPDATED], 4001);
    CleanOldKeepsAll([ADDED], 4001);
  }

  lemma OvertakenInv()
    ensures WriterInv(Stepper(), ONE_MILLISECOND, AFTER_BOTH)
  {
    OvertakenRun();
    NumberedKeepsInv(ONE_MILLISECOND, OVERTAKEN);
  }

  lemma OvertakenReplay()
    ensures Reap(ONE_MILLISECOND, BOTH, 5001) == [ADDED] && ReplaysTo([ADDED], 7, 5001, 10)
  {
    BothReaped();
    FullReplaysTo(ADDED, 5001);
  }

  lemma OvertakenJoin()
    ensures EndsWith(ONE_MILLISECOND, AFTER_BOTH, 7, 5001, 10, 20)
  {
    OvertakenInv();
    OvertakenReplay();
    JoinerEnds(ONE_MILLISECOND, AFTER_BOTH, [ADDED], 7, 5001, 10);
  }

  /** No partial update is needed to diverge: when the later value is stale and the earlier one is not, the earlier one
      is all that is left of the key, and the reader is left with it: with 10 where the writer has 20. */
  lemma OvertakenValueDiverges()
    ensures EndsWith(ONE_MILLISECOND, Run(Stepper(), ONE_MILLISECOND, OVERTAKEN), 7, 5001, 10, 20)
    ensures !AllJoinersAgree(Stepper(), ONE_MILLISECOND, Run(Stepper(), ONE_MILLISECOND, OVERTAKEN), 7)
  {
    OvertakenRun();
    OvertakenJoin();
    EndsElsewhere(ONE_MILLISECOND, AFTER_BOTH, 7, 5001, 10, 20);
  }
}
