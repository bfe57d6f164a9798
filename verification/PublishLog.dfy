/** The log of everything a writer published, and the writer state as a function of it. */
module PublishLog {
  import opened Samples
  import opened History

  function Last<T>(q: seq<T>): T
    requires q != []
  {
    q[|q| - 1]
  }

  function Front<T>(q: seq<T>): seq<T>
    requires q != []
  {
    q[..|q| - 1]
  }

  /** The samples of one key, in order. */
  function Project(l: seq<Sample>, k: Key): seq<Sample> {
    if l == [] then [] else Project(Front(l), k) + (if Last(l).key == k then [Last(l)] else [])
  }

  lemma {:induction false} ProjectMembers(l: seq<Sample>, k: Key, s: Sample)
    ensures s in Project(l, k) <==> s in l && s.key == k
  {
    if l != [] {
      assert l == Front(l) + [Last(l)];
      ProjectMembers(Front(l), k, s);
    }
  }

  lemma ProjectSnoc(l: seq<Sample>, s: Sample, k: Key)
    ensures Project(l + [s], k) == Project(l, k) + (if s.key == k then [s] else [])
  {
    assert Front(l + [s]) == l;
  }

  lemma {:induction false} ProjectConcat(a: seq<Sample>, b: seq<Sample>, k: Key)
    ensures Project(a + b, k) == Project(a, k) + Project(b, k)
  {
    if b == [] {
      assert a + b == a;
    } else {
      assert Front(a + b) == a + Front(b);
      ProjectConcat(a, Front(b), k);
    }
  }

  /** Records a sample as its key's base; a remove leaves the key without one. */
  function Rebase(bases: map<Key, Sample>, s: Sample): map<Key, Sample> {
    if s.event.Remove? then bases - {s.key} else bases[s.key := s]
  }

  /** The current sample of every live key: the fold of the log. */
  function Current(l: seq<Sample>): map<Key, Sample> {
    if l == [] then map[] else Rebase(Current(Front(l)), Last(l))
  }

  lemma {:induction false} CurrentIsNewest(l: seq<Sample>, k: Key)
    ensures k in Current(l) <==> Project(l, k) != [] && !Last(Project(l, k)).event.Remove?
    ensures k in Current(l) ==> Current(l)[k] == Last(Project(l, k))
  {
    if l != [] {
      CurrentIsNewest(Front(l), k);
    }
  }

  /** What the writer establishes for a sample taken alone. */
  predicate Sound(s: Sample) {
    && (!s.event.Remove? ==> s.value.Some?)
    && (!s.event.PartialUpdate? ==> s.encoded == [])
  }

  /** `s` directly follows `previous` on their key: a partial update holds the result of applying itself to it. */
  predicate Linked(c: Codec, previous: Sample, s: Sample) {
    s.event.PartialUpdate? ==>
      && !previous.event.Remove?
      && previous.value.Some?
      && s.value == Some(c.apply(s.tag, previous.value.value, s.encoded))
  }

  ghost predicate Chained(c: Codec, p: seq<Sample>) {
    && (forall i :: 0 <= i < |p| ==> Sound(p[i]))
    && (forall i :: 0 < i < |p| ==> Linked(c, p[i - 1], p[i]))
  }

  ghost predicate IdsIncrease(l: seq<Sample>) {
    forall i, j :: 0 <= i < j < |l| ==> l[i].id < l[j].id
  }

  lemma SameLast(a: seq<Sample>, b: seq<Sample>)
    requires IdsIncrease(a) && IdsIncrease(b) && a != [] && b != []
    requires forall s :: s in a <==> s in b
    ensures Last(a) == Last(b)
  {
    assert Last(a) in b && Last(b) in a;
  }

  lemma FrontMembers(a: seq<Sample>, s: Sample)
    requires IdsIncrease(a) && a != []
    ensures s in Front(a) <==> s in a && s != Last(a)
  {
    assert a == Front(a) + [Last(a)];
  }

  /** A sequence in id order is determined by its elements. */
  lemma {:induction false} SortedIsUnique(a: seq<Sample>, b: seq<Sample>)
    requires IdsIncrease(a) && IdsIncrease(b)
    requires forall s :: s in a <==> s in b
    ensures a == b
  {
    assert b != [] ==> b[0] in a;
    if a != [] {
      assert a[0] in b;
      SameLast(a, b);
      forall s ensures s in Front(a) <==> s in Front(b) {
        FrontMembers(a, s);
        FrontMembers(b, s);
      }
      SortedIsUnique(Front(a), Front(b));
      assert a == Front(a) + [Last(a)] && b == Front(b) + [Last(b)];
    }
  }

  lemma {:induction false} ProjectIds(l: seq<Sample>, k: Key)
    requires IdsIncrease(l)
    ensures IdsIncrease(Project(l, k))
  {
    if l != [] {
      ProjectIds(Front(l), k);
      var p := Project(Front(l), k);
      forall i | 0 <= i < |p| ensures p[i].id < Last(l).id {
        ProjectMembers(Front(l), k, p[i]);
      }
    }
  }

  ghost predicate IdsPositive(l: seq<Sample>) {
    forall i :: 0 <= i < |l| ==> l[i].id > 0
  }

  /** On key `k` the samples form a resolved chain that starts with a full value or a remove. */
  ghost predicate KeyWellFormed(c: Codec, l: seq<Sample>, k: Key) {
    var p := Project(l, k);
    Chained(c, p) && (p != [] ==> !p[0].event.PartialUpdate?)
  }

  ghost predicate WellFormed(c: Codec, l: seq<Sample>) {
    && IdsIncrease(l)
    && IdsPositive(l)
    && (forall k :: KeyWellFormed(c, l, k))
  }

  /** A sample as the application's add, update, partialUpdate and remove calls build it. */
  predicate Draft(s: Sample) {
    match s.event
    case PartialUpdate => s.value.None?
    case Remove => s.value.None? && s.encoded == []
    case _ => s.value.Some? && s.encoded == []
  }

  type DraftSample = s: Sample | Draft(s) witness Sample(0, Remove, 0, 0, 0, [], None)

  datatype WriterState = WriterState(log: seq<Sample>, history: seq<Sample>)

  /** The sample as published, or None when a partial update has no base to apply to. */
  function ResolveDraft(c: Codec, bases: map<Key, Sample>, draft: Sample): Option<Sample> {
    if !draft.event.PartialUpdate? then Some(draft)
    else if draft.key in bases && bases[draft.key].value.Some? then Some(ApplyUpdate(c, bases[draft.key], draft))
    else None
  }

  datatype Action = Publish(draft: DraftSample, id: int, now: int) | ReapAt(now: int)

  /** One writer step. A refused partial update leaves the state unchanged. */
  function Step(c: Codec, cfg: Config, st: WriterState, a: Action): WriterState {
    match a
    case ReapAt(now) => st.(history := Reap(cfg, st.history, now))
    case Publish(draft, id, now) =>
      match ResolveDraft(c, Current(st.log), draft)
      case None => st
      case Some(s) =>
        var sent := s.(id := id, timestamp := now);
        WriterState(st.log + [sent], Append(cfg, st.history, sent, now))
  }

  /** The topic hands out increasing ids. Nothing is asked of the clock. */
  ghost predicate Admissible(st: WriterState, a: Action) {
    a.Publish? ==> a.id > 0 && (st.log != [] ==> a.id > Last(st.log).id)
  }

  const FRESH := WriterState([], [])

  function Run(c: Codec, cfg: Config, acts: seq<Action>): WriterState {
    if acts == [] then FRESH else Step(c, cfg, Run(c, cfg, Front(acts)), Last(acts))
  }

  ghost predicate AdmissibleRun(c: Codec, cfg: Config, acts: seq<Action>) {
    forall i :: 0 <= i < |acts| ==> Admissible(Run(c, cfg, acts[..i]), acts[i])
  }

  /** `h` consists of samples of the log, in the order of the log. */
  ghost predicate Drawn(h: seq<Sample>, l: seq<Sample>) {
    IdsIncrease(h) && forall i :: 0 <= i < |h| ==> h[i] in l
  }

  ghost predicate WithinConfig(cfg: Config, h: seq<Sample>) {
    && (cfg.Bounded() ==> |h| <= cfg.sampleCount.value)
    && (cfg.KeepsNoHistory() ==> h == [])
    && (forall i :: 0 < i < |h| ==> !cfg.Clears(h[i].event))
  }

  ghost predicate WriterInv(c: Codec, cfg: Config, st: WriterState) {
    WellFormed(c, st.log) && Drawn(st.history, st.log) && WithinConfig(cfg, st.history)
  }

  lemma {:induction false} CleanOldIds(h: seq<Sample>, stale: int)
    requires IdsIncrease(h)
    ensures IdsIncrease(CleanOld(h, stale))
  {
    if h != [] {
      CleanOldIds(h[1..], stale);
      var r := CleanOld(h[1..], stale);
      forall i | 0 <= i < |r| ensures h[0].id < r[i].id {
        CleanOldMembers(h[1..], stale, r[i]);
      }
    }
  }

  lemma ReapDrawn(cfg: Config, h: seq<Sample>, l: seq<Sample>, now: int)
    requires Drawn(h, l)
    ensures Drawn(Reap(cfg, h, now), l)
  {
    if cfg.HasLifetime() {
      CleanOldIds(h, cfg.StaleTime(now));
      var r := Reap(cfg, h, now);
      forall i | 0 <= i < |r| ensures r[i] in l {
        CleanOldMembers(h, cfg.StaleTime(now), r[i]);
      }
    }
  }

  lemma {:induction false} CleanOldWithinConfig(cfg: Config, h: seq<Sample>, stale: int)
    requires forall i :: 0 < i < |h| ==> !cfg.Clears(h[i].event)
    ensures forall i :: 0 < i < |CleanOld(h, stale)| ==> !cfg.Clears(CleanOld(h, stale)[i].event)
  {
    if h != [] {
      CleanOldWithinConfig(cfg, h[1..], stale);
      var r := CleanOld(h[1..], stale);
      forall i | 0 <= i < |r| ensures !cfg.Clears(r[i].event) {
        CleanOldMembers(h[1..], stale, r[i]);
      }
    }
  }

  lemma ReapKeepsInv(c: Codec, cfg: Config, st: WriterState, now: int)
    requires WriterInv(c, cfg, st)
    ensures WriterInv(c, cfg, Step(c, cfg, st, ReapAt(now)))
  {
    ReapDrawn(cfg, st.history, st.log, now);
    if cfg.HasLifetime() {
      CleanOldWithinConfig(cfg, st.history, cfg.StaleTime(now));
    }
  }

  lemma PushWithinConfig(cfg: Config, h: seq<Sample>, s: Sample)
    requires WithinConfig(cfg, h)
    ensures WithinConfig(cfg, Push(cfg, h, s))
  {
  }

  lemma PushDrawn(cfg: Config, h: seq<Sample>, l: seq<Sample>, s: Sample)
    requires Drawn(h, l) && (cfg.KeepsNoHistory() ==> h == [])
    requires forall i :: 0 <= i < |l| ==> l[i].id < s.id
    ensures Drawn(Push(cfg, h, s), l + [s])
  {
    var r := Push(cfg, h, s);
    if !cfg.KeepsNoHistory() {
      forall i | 0 <= i < |r| - 1 ensures r[i] in h && r[i].id < s.id {
      }
    }
  }

  lemma AppendKeepsHistory(cfg: Config, st: WriterState, s: Sample, now: int)
    requires Drawn(st.history, st.log) && WithinConfig(cfg, st.history)
    requires forall i :: 0 <= i < |st.log| ==> st.log[i].id < s.id
    ensures Drawn(Append(cfg, st.history, s, now), st.log + [s]) && WithinConfig(cfg, Append(cfg, st.history, s, now))
  {
    var live := Reap(cfg, st.history, now);
    ReapDrawn(cfg, st.history, st.log, now);
    if cfg.HasLifetime() {
      CleanOldWithinConfig(cfg, st.history, cfg.StaleTime(now));
    }
    PushDrawn(cfg, live, st.log, s);
    PushWithinConfig(cfg, live, s);
  }

  lemma ChainedSnoc(c: Codec, p: seq<Sample>, s: Sample)
    requires Chained(c, p) && Sound(s)
    requires p != [] ==> Linked(c, Last(p), s)
    ensures Chained(c, p + [s])
  {
  }

  lemma SnocKeyWellFormed(c: Codec, l: seq<Sample>, s: Sample, k: Key)
    requires KeyWellFormed(c, l, k) && Sound(s)
    requires s.event.PartialUpdate? ==> s.key in Current(l) && Linked(c, Current(l)[s.key], s)
    ensures KeyWellFormed(c, l + [s], k)
  {
    ProjectSnoc(l, s, k);
    if s.key == k {
      CurrentIsNewest(l, k);
      ChainedSnoc(c, Project(l, k), s);
    }
  }

  lemma SnocIds(l: seq<Sample>, s: Sample)
    requires IdsIncrease(l) && IdsPositive(l)
    requires s.id > 0 && (l != [] ==> s.id > Last(l).id)
    ensures IdsIncrease(l + [s]) && IdsPositive(l + [s])
  {
  }

  lemma SnocWellFormed(c: Codec, l: seq<Sample>, s: Sample)
    requires WellFormed(c, l)
    requires Sound(s) && s.id > 0 && (l != [] ==> s.id > Last(l).id)
    requires s.event.PartialUpdate? ==> s.key in Current(l) && Linked(c, Current(l)[s.key], s)
    ensures WellFormed(c, l + [s])
  {
    SnocIds(l, s);
    forall k ensures KeyWellFormed(c, l + [s], k) {
      SnocKeyWellFormed(c, l, s, k);
    }
  }

  lemma ResolvedIsLinked(c: Codec, l: seq<Sample>, draft: Sample)
    requires WellFormed(c, l) && Draft(draft)
    requires ResolveDraft(c, Current(l), draft).Some?
    ensures var s := ResolveDraft(c, Current(l), draft).value;
      Sound(s) && (s.event.PartialUpdate? ==> s.key in Current(l) && Linked(c, Current(l)[s.key], s))
  {
    CurrentIsNewest(l, draft.key);
  }

  lemma StepKeepsInv(c: Codec, cfg: Config, st: WriterState, a: Action)
    requires WriterInv(c, cfg, st) && Admissible(st, a)
    ensures WriterInv(c, cfg, Step(c, cfg, st, a))
  {
    if a.ReapAt? {
      ReapKeepsInv(c, cfg, st, a.now);
    } else if ResolveDraft(c, Current(st.log), a.draft).Some? {
      ResolvedIsLinked(c, st.log, a.draft);
      var s := ResolveDraft(c, Current(st.log), a.draft).value.(id := a.id, timestamp := a.now);
      SnocWellFormed(c, st.log, s);
      AppendKeepsHistory(cfg, st, s, a.now);
      assert Step(c, cfg, st, a) == WriterState(st.log + [s], Append(cfg, st.history, s, a.now));
    }
  }

  lemma AdmissibleFront(c: Codec, cfg: Config, acts: seq<Action>)
    requires acts != [] && AdmissibleRun(c, cfg, acts)
    ensures AdmissibleRun(c, cfg, Front(acts)) && Admissible(Run(c, cfg, Front(acts)), Last(acts))
  {
    forall i | 0 <= i < |Front(acts)| ensures Admissible(Run(c, cfg, Front(acts)[..i]), Front(acts)[i]) {
      assert Front(acts)[..i] == acts[..i];
    }
  }

  lemma AdmissibleSnoc(c: Codec, cfg: Config, acts: seq<Action>)
    requires acts != [] && AdmissibleRun(c, cfg, Front(acts)) && Admissible(Run(c, cfg, Front(acts)), Last(acts))
    ensures AdmissibleRun(c, cfg, acts)
  {
    forall i | 0 <= i < |acts| ensures Admissible(Run(c, cfg, acts[..i]), acts[i]) {
      if i < |acts| - 1 {
        assert Front(acts)[..i] == acts[..i] && Front(acts)[i] == acts[i];
      } else {
        assert acts[..i] == Front(acts);
      }
    }
  }

  /** After any run, whatever the clock did, the history consists of published samples in their order, within the
      configured count, and reaches back no further than the last sample that clears it; the log is a resolved chain on
      every key. */
  lemma {:induction false} RunKeepsInv(c: Codec, cfg: Config, acts: seq<Action>)
    requires AdmissibleRun(c, cfg, acts)
    ensures WriterInv(c, cfg, Run(c, cfg, acts))
  {
    if acts != [] {
      AdmissibleFront(c, cfg, acts);
      RunKeepsInv(c, cfg, Front(acts));
      StepKeepsInv(c, cfg, Run(c, cfg, Front(acts)), Last(acts));
    }
  }

  // ----- what a publish adds to the log -----

  /** A partial update is refused when its key has no value: none was published, or it was removed last. */
  ghost predicate Refused(l: seq<Sample>, draft: Sample) {
    draft.event.PartialUpdate? && (Project(l, draft.key) == [] || Last(Project(l, draft.key)).event.Remove?)
  }

  /** The draft's own value, or the update applied to the value of the key's newest sample. */
  ghost predicate IsValueOf(c: Codec, l: seq<Sample>, draft: Sample, value: Option<Value>) {
    if draft.event.PartialUpdate? then
      && Project(l, draft.key) != []
      && var newest := Last(Project(l, draft.key));
        newest.value.Some? && value == Some(c.apply(draft.tag, newest.value.value, draft.encoded))
    else value == draft.value
  }

  /** `s` is the draft as published: the draft's event, key, tag and update bytes, with its id, time and value. */
  ghost predicate PublishedAs(c: Codec, l: seq<Sample>, draft: Sample, id: int, now: int, s: Sample) {
    && s.id == id && s.timestamp == now
    && s.event == draft.event && s.key == draft.key && s.tag == draft.tag && s.encoded == draft.encoded
    && IsValueOf(c, l, draft, s.value)
  }

  /** A refused partial update changes nothing. Any other publish adds one sample to the log. */
  ghost predicate PublishOutcome(c: Codec, l: seq<Sample>, draft: Sample, id: int, now: int, l': seq<Sample>) {
    if Refused(l, draft) then l' == l
    else l' != [] && Front(l') == l && PublishedAs(c, l, draft, id, now, Last(l'))
  }

  lemma PublishIsResolved(c: Codec, cfg: Config, st: WriterState, draft: DraftSample, id: int, now: int)
    requires WriterInv(c, cfg, st)
    ensures ResolveDraft(c, Current(st.log), draft).None? <==> Refused(st.log, draft)
    ensures PublishOutcome(c, st.log, draft, id, now, Step(c, cfg, st, Publish(draft, id, now)).log)
    ensures Refused(st.log, draft) ==> Step(c, cfg, st, Publish(draft, id, now)) == st
  {
    var p := Project(st.log, draft.key);
    CurrentIsNewest(st.log, draft.key);
    assert KeyWellFormed(c, st.log, draft.key);
    assert p != [] ==> Sound(p[|p| - 1]);
    var l' := Step(c, cfg, st, Publish(draft, id, now)).log;
    if !Refused(st.log, draft) {
      var s := ResolveDraft(c, Current(st.log), draft).value.(id := id, timestamp := now);
      assert l' == st.log + [s];
      assert Front(st.log + [s]) == st.log;
    }
  }

  /** After any run a publish is refused exactly when it is a partial update of a key without a value; otherwise the log
      grows by the draft, with the value the key's newest sample gives it. */
  lemma EveryPublishIsResolved(c: Codec, cfg: Config, acts: seq<Action>, draft: DraftSample, id: int, now: int)
    requires AdmissibleRun(c, cfg, acts)
    ensures
      var st, st' := Run(c, cfg, acts), Run(c, cfg, acts + [Publish(draft, id, now)]);
      PublishOutcome(c, st.log, draft, id, now, st'.log) && (Refused(st.log, draft) ==> st' == st)
  {
    var a := Publish(draft, id, now);
    assert Front(acts + [a]) == acts && Last(acts + [a]) == a;
    RunKeepsInv(c, cfg, acts);
    PublishIsResolved(c, cfg, Run(c, cfg, acts), draft, id, now);
  }

  // ----- the history as a suffix -----

  lemma ReapIsSuffix(cfg: Config, h: seq<Sample>, now: int)
    requires cfg.HasLifetime() ==> Monotone(h)
    ensures IsSuffix(Reap(cfg, h, now), h)
  {
    if cfg.HasLifetime() {
      ReapsPrefixIffMonotone(h);
    }
  }

  lemma PushIsSuffix(cfg: Config, h: seq<Sample>, l: seq<Sample>, s: Sample)
    requires IsSuffix(h, l) && (cfg.KeepsNoHistory() ==> h == [])
    ensures IsSuffix(Push(cfg, h, s), l + [s])
  {
    if !cfg.KeepsNoHistory() {
      var kept := Front(Push(cfg, h, s));
      assert IsSuffix(kept, h);
      SuffixTransitive(kept, h, l);
      SuffixSnoc(kept, l, s);
    }
  }

  lemma SuffixMonotone(h: seq<Sample>, l: seq<Sample>)
    requires IsSuffix(h, l)
    ensures Monotone(l) ==> Monotone(h)
  {
    assert forall i :: 0 <= i < |h| ==> h[i] == l[|l| - |h| + i];
  }

  lemma StepIsSuffix(c: Codec, cfg: Config, st: WriterState, a: Action)
    requires IsSuffix(st.history, st.log) && WithinConfig(cfg, st.history) && (cfg.HasLifetime() ==> Monotone(st.log))
    ensures IsSuffix(Step(c, cfg, st, a).history, Step(c, cfg, st, a).log)
  {
    var live := Reap(cfg, st.history, a.now);
    SuffixMonotone(st.history, st.log);
    ReapIsSuffix(cfg, st.history, a.now);
    SuffixTransitive(live, st.history, st.log);
    if a.Publish? && ResolveDraft(c, Current(st.log), a.draft).Some? {
      var s := ResolveDraft(c, Current(st.log), a.draft).value.(id := a.id, timestamp := a.now);
      PushIsSuffix(cfg, live, st.log, s);
    }
  }

  lemma LogGrows(c: Codec, cfg: Config, st: WriterState, a: Action)
    ensures st.log <= Step(c, cfg, st, a).log
  {
  }

  /** When the publish times never decrease, or without a lifetime, the history is a suffix of the log. */
  lemma {:induction false} HistoryIsSuffix(c: Codec, cfg: Config, acts: seq<Action>)
    requires AdmissibleRun(c, cfg, acts)
    requires cfg.HasLifetime() ==> Monotone(Run(c, cfg, acts).log)
    ensures IsSuffix(Run(c, cfg, acts).history, Run(c, cfg, acts).log)
  {
    if acts != [] {
      AdmissibleFront(c, cfg, acts);
      var st := Run(c, cfg, Front(acts));
      LogGrows(c, cfg, st, Last(acts));
      HistoryIsSuffix(c, cfg, Front(acts));
      RunKeepsInv(c, cfg, Front(acts));
      StepIsSuffix(c, cfg, st, Last(acts));
    }
  }

  /** The index of the last sample that clears the history. */
  function ClearPoint(cfg: Config, l: seq<Sample>): (i: nat)
    ensures i <= |l|
  {
    if l == [] then 0 else if cfg.Clears(Last(l).event) then |l| - 1 else ClearPoint(cfg, Front(l))
  }

  function Max(a: nat, b: nat): nat {
    if a > b then a else b
  }

  /** Where the count and the clear policy alone let the history start in the log. */
  function HistoryStart(cfg: Config, l: seq<Sample>): (i: nat)
    ensures i <= |l|
  {
    if cfg.KeepsNoHistory() then |l|
    else if cfg.Bounded() && |l| > cfg.sampleCount.value then Max(|l| - cfg.sampleCount.value, ClearPoint(cfg, l))
    else ClearPoint(cfg, l)
  }

  /** The index of the first sample that is not older than `stale`. */
  function FirstFresh(l: seq<Sample>, stale: int): (p: nat)
    ensures p <= |l|
    ensures forall i :: 0 <= i < p ==> l[i].timestamp < stale
    ensures p < |l| ==> l[p].timestamp >= stale
  {
    if l == [] || l[0].timestamp >= stale then 0 else 1 + FirstFresh(l[1..], stale)
  }

  function FreshStart(cfg: Config, l: seq<Sample>, now: int): (p: nat)
    ensures p <= |l|
  {
    if cfg.HasLifetime() then FirstFresh(l, cfg.StaleTime(now)) else 0
  }

  lemma {:induction false} CleanOldFromFirstFresh(l: seq<Sample>, stale: int)
    requires Monotone(l)
    ensures CleanOld(l, stale) == l[FirstFresh(l, stale)..]
  {
    if l == [] {
    } else if l[0].timestamp >= stale {
      CleanOldKeepsAll(l, stale);
    } else {
      CleanOldFromFirstFresh(l[1..], stale);
    }
  }

  lemma FirstFreshOfSuffix(l: seq<Sample>, a: nat, stale: int)
    requires Monotone(l) && a <= |l|
    ensures a + FirstFresh(l[a..], stale) == Max(a, FirstFresh(l, stale))
  {
    var p, p' := FirstFresh(l, stale), FirstFresh(l[a..], stale);
    assert p < |l| ==> l[p].timestamp >= stale;
    assert p' < |l| - a ==> l[a..][p'] == l[a + p'];
    assert p' > 0 ==> l[a..][p' - 1] == l[a + p' - 1];
  }

  /** Reaping a suffix of the log. */
  lemma ReapSuffix(cfg: Config, l: seq<Sample>, a: nat, now: int)
    requires cfg.HasLifetime() ==> Monotone(l)
    requires a <= |l|
    ensures Reap(cfg, l[a..], now) == l[Max(a, FreshStart(cfg, l, now))..]
  {
    if cfg.HasLifetime() {
      CleanOldFromFirstFresh(l[a..], cfg.StaleTime(now));
      FirstFreshOfSuffix(l, a, cfg.StaleTime(now));
    }
  }

  lemma PushIsExact(cfg: Config, l: seq<Sample>, b: nat, s: Sample)
    requires HistoryStart(cfg, l) <= b <= |l|
    ensures Push(cfg, l[b..], s) == (l + [s])[Max(b, HistoryStart(cfg, l + [s]))..]
  {
    assert Front(l + [s]) == l;
    if !cfg.KeepsNoHistory() {
      var e := Max(b, HistoryStart(cfg, l + [s]));
      assert (l + [s])[e..] == l[e..] + [s];
      assert e == if cfg.Clears(s.event) then |l|
        else if cfg.Bounded() && |l| - b + 1 > cfg.sampleCount.value then b + 1 else b;
    }
  }

  lemma FreshStartSnoc(cfg: Config, l: seq<Sample>, s: Sample, now: int)
    requires cfg.HasLifetime() ==> s.timestamp >= cfg.StaleTime(now)
    ensures FreshStart(cfg, l + [s], now) == FreshStart(cfg, l, now)
  {
    if cfg.HasLifetime() {
      var p, p' := FreshStart(cfg, l, now), FreshStart(cfg, l + [s], now);
      assert (l + [s])[p] == if p < |l| then l[p] else s;
      assert p' <= p;
      assert (l + [s])[p'] == if p' < |l| then l[p'] else s;
    }
  }

  lemma FreshStartGrows(cfg: Config, l: seq<Sample>, t: int, t': int)
    requires t <= t' && (cfg.HasLifetime() ==> Monotone(l))
    ensures FreshStart(cfg, l, t) <= FreshStart(cfg, l, t')
  {
  }

  /** The time of the last action that ran; a refused update does not reap. */
  function Clock(c: Codec, cfg: Config, acts: seq<Action>): Option<int> {
    if acts == [] then None
    else if Last(acts).Publish? && ResolveDraft(c, Current(Run(c, cfg, Front(acts)).log), Last(acts).draft).None?
    then Clock(c, cfg, Front(acts))
    else Some(Last(acts).now)
  }

  ghost predicate ClockAdvances(c: Codec, cfg: Config, acts: seq<Action>) {
    forall i :: 0 <= i < |acts| ==>
      Clock(c, cfg, acts[..i]).Some? ==> acts[i].now >= Clock(c, cfg, acts[..i]).value
  }

  ghost predicate HistoryExact(cfg: Config, st: WriterState, clock: Option<int>) {
    if clock.None? then st == FRESH
    else st.history == st.log[Max(HistoryStart(cfg, st.log), FreshStart(cfg, st.log, clock.value))..]
  }

  lemma ReapIsExact(cfg: Config, st: WriterState, clock: Option<int>, now: int)
    requires HistoryExact(cfg, st, clock) && (cfg.HasLifetime() ==> Monotone(st.log))
    requires clock.Some? ==> now >= clock.value
    ensures Reap(cfg, st.history, now) == st.log[Max(HistoryStart(cfg, st.log), FreshStart(cfg, st.log, now))..]
  {
    var before := if clock.Some? then clock.value else now;
    var start := Max(HistoryStart(cfg, st.log), FreshStart(cfg, st.log, before));
    assert st.history == st.log[start..];
    FreshStartGrows(cfg, st.log, before, now);
    ReapSuffix(cfg, st.log, start, now);
  }

  lemma HistoryStartGrows(cfg: Config, l: seq<Sample>, s: Sample)
    ensures HistoryStart(cfg, l) <= HistoryStart(cfg, l + [s])
  {
    assert Front(l + [s]) == l;
  }

  lemma PublishIsExact(cfg: Config, st: WriterState, s: Sample, now: int)
    requires Reap(cfg, st.history, now) == st.log[Max(HistoryStart(cfg, st.log), FreshStart(cfg, st.log, now))..]
    requires s.timestamp == now
    ensures HistoryExact(cfg, WriterState(st.log + [s], Append(cfg, st.history, s, now)), Some(now))
  {
    PushIsExact(cfg, st.log, Max(HistoryStart(cfg, st.log), FreshStart(cfg, st.log, now)), s);
    FreshStartSnoc(cfg, st.log, s, now);
    HistoryStartGrows(cfg, st.log, s);
  }

  lemma StepIsExact(c: Codec, cfg: Config, st: WriterState, clock: Option<int>, a: Action)
    requires HistoryExact(cfg, st, clock) && (cfg.HasLifetime() ==> Monotone(st.log))
    requires clock.Some? ==> a.now >= clock.value
    requires a.Publish? ==> ResolveDraft(c, Current(st.log), a.draft).Some?
    ensures HistoryExact(cfg, Step(c, cfg, st, a), Some(a.now))
  {
    ReapIsExact(cfg, st, clock, a.now);
    if a.Publish? {
      PublishIsExact(cfg, st, ResolveDraft(c, Current(st.log), a.draft).value.(id := a.id, timestamp := a.now), a.now);
    }
  }

  /** The log is in order, and nothing in it is newer than the clock. */
  ghost predicate Paced(l: seq<Sample>, clock: Option<int>) {
    Monotone(l) && (clock.None? ==> l == []) && (l != [] && clock.Some? ==> Last(l).timestamp <= clock.value)
  }

  lemma StepKeepsPace(c: Codec, cfg: Config, st: WriterState, clock: Option<int>, a: Action)
    requires Paced(st.log, clock) && (clock.Some? ==> a.now >= clock.value)
    requires a.Publish? ==> ResolveDraft(c, Current(st.log), a.draft).Some?
    ensures Paced(Step(c, cfg, st, a).log, Some(a.now))
  {
  }

  /** With a clock that does not step back, the history is exactly the part of the log after the last clearing sample,
      cut to the sample count and to the samples not stale at the last action. */
  lemma {:induction false} HistoryIsExact(c: Codec, cfg: Config, acts: seq<Action>)
    requires ClockAdvances(c, cfg, acts)
    ensures HistoryExact(cfg, Run(c, cfg, acts), Clock(c, cfg, acts))
    ensures Paced(Run(c, cfg, acts).log, Clock(c, cfg, acts))
  {
    if acts != [] {
      forall i | 0 <= i < |Front(acts)| ensures Front(acts)[..i] == acts[..i] {
      }
      HistoryIsExact(c, cfg, Front(acts));
      var st, a := Run(c, cfg, Front(acts)), Last(acts);
      if a.ReapAt? || ResolveDraft(c, Current(st.log), a.draft).Some? {
        StepIsExact(c, cfg, st, Clock(c, cfg, Front(acts)), a);
        StepKeepsPace(c, cfg, st, Clock(c, cfg, Front(acts)), a);
      }
    }
  }
}
