/** What the order of publish times does to the history of one key. */
module KeyOrder {
  import opened Samples
  import opened History
  import opened PublishLog

  /** The index of the last full value or remove. */
  function LastFull(p: seq<Sample>): (g: nat)
    ensures p != [] ==> g < |p|
  {
    if p == [] || !Last(p).event.PartialUpdate? then (if p == [] then 0 else |p| - 1) else LastFull(Front(p))
  }

  lemma {:induction false} LastFullIsLast(p: seq<Sample>)
    requires p != [] && !p[0].event.PartialUpdate?
    ensures !p[LastFull(p)].event.PartialUpdate?
    ensures forall j :: LastFull(p) < j < |p| ==> p[j].event.PartialUpdate?
  {
    if Last(p).event.PartialUpdate? {
      LastFullIsLast(Front(p));
    }
  }

  /** No sample from index `from` on is older than one before it. */
  ghost predicate OrderedFrom(p: seq<Sample>, from: nat) {
    forall i, j :: 0 <= i < j < |p| && from <= j ==> p[i].timestamp <= p[j].timestamp
  }

  /** With a sample of `p` the history `h` holds every later one from index `from` on. */
  ghost predicate ClosedFrom(p: seq<Sample>, h: seq<Sample>, from: nat) {
    forall i, j :: 0 <= i < j < |p| && from <= j && p[i] in h ==> p[j] in h
  }

  lemma ReapMembers(cfg: Config, h: seq<Sample>, now: int, s: Sample)
    ensures s in Reap(cfg, h, now) <==> s in h && (cfg.HasLifetime() ==> s.timestamp >= cfg.StaleTime(now))
  {
    if cfg.HasLifetime() {
      CleanOldMembers(h, cfg.StaleTime(now), s);
    }
  }

  lemma ReapKeepsClosed(cfg: Config, p: seq<Sample>, h: seq<Sample>, from: nat, now: int)
    requires ClosedFrom(p, h, from) && (cfg.HasLifetime() ==> OrderedFrom(p, from))
    ensures ClosedFrom(p, Reap(cfg, h, now), from)
  {
    forall i, j | 0 <= i < j < |p| && from <= j && p[i] in Reap(cfg, h, now) ensures p[j] in Reap(cfg, h, now) {
      ReapMembers(cfg, h, now, p[i]);
      ReapMembers(cfg, h, now, p[j]);
    }
  }

  /** Making room drops the oldest sample only. */
  lemma RestHolds(h: seq<Sample>, a: Sample, b: Sample)
    requires IdsIncrease(h) && h != [] && a in h[1..] && b in h && a.id < b.id
    ensures b in h[1..]
  {
    assert h == [h[0]] + h[1..];
  }

  lemma PushKeepsClosed(cfg: Config, p: seq<Sample>, h: seq<Sample>, from: nat, s: Sample, extended: bool)
    requires ClosedFrom(p, h, from) && IdsIncrease(h) && IdsIncrease(p) && (cfg.KeepsNoHistory() ==> h == [])
    requires forall i :: 0 <= i < |p| ==> p[i].id < s.id
    ensures ClosedFrom(if extended then p + [s] else p, Push(cfg, h, s), from)
  {
    var p', h' := if extended then p + [s] else p, Push(cfg, h, s);
    if !cfg.KeepsNoHistory() {
      assert s in h';
      forall i, j | 0 <= i < j < |p'| && from <= j && p'[i] in h' ensures p'[j] in h' {
        if j < |p| {
          assert p'[i] == p[i] && p'[j] == p[j] && p[i] != s;
          assert p[i] in h && p[j] in h;
          if h' != h + [s] {
            RestHolds(h, p[i], p[j]);
          }
        }
      }
    }
  }

  lemma StepKeepsClosed(c: Codec, cfg: Config, st: WriterState, a: Action, k: Key, from: nat)
    requires WriterInv(c, cfg, st) && Admissible(st, a) && ClosedFrom(Project(st.log, k), st.history, from)
    requires cfg.HasLifetime() ==> OrderedFrom(Project(st.log, k), from)
    ensures ClosedFrom(Project(Step(c, cfg, st, a).log, k), Step(c, cfg, st, a).history, from)
  {
    var p := Project(st.log, k);
    ReapKeepsClosed(cfg, p, st.history, from, a.now);
    if a.Publish? && ResolveDraft(c, Current(st.log), a.draft).Some? {
      var s := ResolveDraft(c, Current(st.log), a.draft).value.(id := a.id, timestamp := a.now);
      ReapDrawn(cfg, st.history, st.log, a.now);
      ProjectIds(st.log, k);
      ProjectSnoc(st.log, s, k);
      forall i | 0 <= i < |p| ensures p[i].id < s.id {
        ProjectMembers(st.log, k, p[i]);
      }
      PushKeepsClosed(cfg, p, Reap(cfg, st.history, a.now), from, s, s.key == k);
    }
  }

  lemma ProjectStep(c: Codec, cfg: Config, st: WriterState, a: Action, k: Key)
    ensures Project(st.log, k) <= Project(Step(c, cfg, st, a).log, k)
    ensures |Project(Step(c, cfg, st, a).log, k)| <= |Project(st.log, k)| + 1
  {
    if a.Publish? && ResolveDraft(c, Current(st.log), a.draft).Some? {
      var s := ResolveDraft(c, Current(st.log), a.draft).value.(id := a.id, timestamp := a.now);
      ProjectSnoc(st.log, s, k);
    }
  }

  /** Whatever the clock did elsewhere: where a key's samples are in order from index `from` on, the history holds, with
      a sample of the key, all its later ones from there on. */
  lemma {:induction false} RunIsClosed(c: Codec, cfg: Config, acts: seq<Action>, k: Key, from: nat)
    requires AdmissibleRun(c, cfg, acts)
    requires cfg.HasLifetime() ==> OrderedFrom(Project(Run(c, cfg, acts).log, k), from)
    ensures ClosedFrom(Project(Run(c, cfg, acts).log, k), Run(c, cfg, acts).history, from)
  {
    if acts != [] {
      AdmissibleFront(c, cfg, acts);
      var st := Run(c, cfg, Front(acts));
      ProjectStep(c, cfg, st, Last(acts), k);
      RunIsClosed(c, cfg, Front(acts), k, from);
      RunKeepsInv(c, cfg, Front(acts));
      StepKeepsClosed(c, cfg, st, Last(acts), k, from);
    }
  }

  // ----- the two conditions on a writer's state -----

  predicate NotOlder(cfg: Config, a: Sample, b: Sample) {
    cfg.HasLifetime() ==> a.timestamp <= b.timestamp
  }

  /** A key with a value: the history holds, with any sample of it, all its later ones from the last full value on, and
      none of them is older. */
  ghost predicate SteadyLive(cfg: Config, p: seq<Sample>, h: seq<Sample>) {
    forall i, j :: 0 <= i < j < |p| && LastFull(p) <= j && p[i] in h ==> p[j] in h && NotOlder(cfg, p[i], p[j])
  }

  ghost predicate IsOutlived(cfg: Config, hk: seq<Sample>, i: int, j: int) {
    0 <= i < j < |hk| && hk[j].event.Remove? && NotOlder(cfg, hk[i], hk[j])
  }

  /** A key without a value: every other sample in the history is followed there by a remove that is not older. */
  ghost predicate SteadyGone(cfg: Config, hk: seq<Sample>) {
    forall i :: 0 <= i < |hk| && !hk[i].event.Remove? ==> exists j :: IsOutlived(cfg, hk, i, j)
  }

  predicate IsLive(p: seq<Sample>) {
    p != [] && !Last(p).event.Remove?
  }

  /** The state of key `k` in a writer with log `l` and history `h`, as far as reaping is concerned. */
  ghost predicate Steady(cfg: Config, l: seq<Sample>, h: seq<Sample>, k: Key) {
    if IsLive(Project(l, k)) then SteadyLive(cfg, Project(l, k), h) else SteadyGone(cfg, Project(h, k))
  }

  /** No sample of the key, from its last full value or remove on, was published with an earlier time than a sample
      before it. Other keys do not matter, nor does the order of samples a later full value made obsolete. */
  ghost predicate KeyInOrder(p: seq<Sample>) {
    OrderedFrom(p, LastFull(p))
  }

  lemma DrawnMember(h: seq<Sample>, l: seq<Sample>, k: Key, i: nat) returns (a: nat)
    requires Drawn(h, l) && i < |Project(h, k)|
    ensures a < |Project(l, k)| && Project(l, k)[a] == Project(h, k)[i]
  {
    var s := Project(h, k)[i];
    ProjectMembers(h, k, s);
    ProjectMembers(l, k, s);
    a :| 0 <= a < |Project(l, k)| && Project(l, k)[a] == s;
  }

  /** The remove that ends a removed key outlives every sample of it in the history. */
  lemma LastRemoveOutlives(cfg: Config, l: seq<Sample>, h: seq<Sample>, k: Key, i: nat) returns (j: nat)
    requires IdsIncrease(l) && Drawn(h, l) && !IsLive(Project(l, k))
    requires ClosedFrom(Project(l, k), h, LastFull(Project(l, k)))
    requires cfg.HasLifetime() ==> KeyInOrder(Project(l, k))
    requires i < |Project(h, k)| && !Project(h, k)[i].event.Remove?
    ensures IsOutlived(cfg, Project(h, k), i, j)
  {
    var p, hk := Project(l, k), Project(h, k);
    var a := DrawnMember(h, l, k, i);
    var last := Last(p);
    ProjectMembers(h, k, hk[i]);
    ProjectMembers(l, k, last);
    assert a < |p| - 1 && p[|p| - 1] in h;
    ProjectMembers(h, k, last);
    j :| 0 <= j < |hk| && hk[j] == last;
    ProjectIds(l, k);
    ProjectIds(h, k);
    assert hk[i].id < hk[j].id;
  }

  lemma GoneIsSteady(cfg: Config, l: seq<Sample>, h: seq<Sample>, k: Key)
    requires IdsIncrease(l) && Drawn(h, l) && !IsLive(Project(l, k))
    requires ClosedFrom(Project(l, k), h, LastFull(Project(l, k)))
    requires cfg.HasLifetime() ==> KeyInOrder(Project(l, k))
    ensures SteadyGone(cfg, Project(h, k))
  {
    var hk := Project(h, k);
    forall i | 0 <= i < |hk| && !hk[i].event.Remove? ensures exists j :: IsOutlived(cfg, hk, i, j) {
      var j := LastRemoveOutlives(cfg, l, h, k, i);
    }
  }

  /** Over any run a key that is in order, or any key of a writer without a lifetime, is steady. */
  lemma RunIsSteady(c: Codec, cfg: Config, acts: seq<Action>, k: Key)
    requires AdmissibleRun(c, cfg, acts)
    requires cfg.HasLifetime() ==> KeyInOrder(Project(Run(c, cfg, acts).log, k))
    ensures Steady(cfg, Run(c, cfg, acts).log, Run(c, cfg, acts).history, k)
  {
    var st := Run(c, cfg, acts);
    RunIsClosed(c, cfg, acts, k, LastFull(Project(st.log, k)));
    RunKeepsInv(c, cfg, acts);
    if !IsLive(Project(st.log, k)) {
      GoneIsSteady(cfg, st.log, st.history, k);
    }
  }

  lemma HistoryStartsAt(l: seq<Sample>, h: seq<Sample>, k: Key, a: nat, i: nat)
    requires IdsIncrease(l) && Drawn(h, l) && a < |Project(l, k)| && i < |Project(h, k)|
    requires Project(h, k)[0] == Project(l, k)[a]
    ensures Project(h, k)[i] in Project(l, k)[a..]
  {
    ProjectIds(l, k);
    ProjectIds(h, k);
    var b := DrawnMember(h, l, k, i);
    assert b >= a;
    assert Project(l, k)[a..][b - a] == Project(h, k)[i];
  }

  lemma HistoryHoldsFrom(l: seq<Sample>, h: seq<Sample>, k: Key, a: nat, b: nat)
    requires ClosedFrom(Project(l, k), h, 0) && Project(h, k) != [] && a <= b < |Project(l, k)|
    requires Project(h, k)[0] == Project(l, k)[a]
    ensures Project(l, k)[b] in Project(h, k)
  {
    ProjectMembers(h, k, Project(h, k)[0]);
    ProjectMembers(l, k, Project(l, k)[b]);
    ProjectMembers(h, k, Project(l, k)[b]);
  }

  lemma SuffixByMembers(t: seq<Sample>, p: seq<Sample>, a: nat)
    requires IdsIncrease(t) && IdsIncrease(p) && a <= |p|
    requires forall i :: 0 <= i < |t| ==> t[i] in p[a..]
    requires forall b :: a <= b < |p| ==> p[b] in t
    ensures IsSuffix(t, p)
  {
    assert forall b :: 0 <= b < |p[a..]| ==> p[a..][b] == p[a + b];
    SortedIsUnique(t, p[a..]);
  }

  /** A history that holds all later samples with each one holds a suffix. */
  lemma ClosedIsSuffix(l: seq<Sample>, h: seq<Sample>, k: Key)
    requires IdsIncrease(l) && Drawn(h, l) && ClosedFrom(Project(l, k), h, 0)
    ensures IsSuffix(Project(h, k), Project(l, k))
  {
    var p, hk := Project(l, k), Project(h, k);
    ProjectIds(l, k);
    ProjectIds(h, k);
    if hk != [] {
      var a := DrawnMember(h, l, k, 0);
      forall i | 0 <= i < |hk| ensures hk[i] in p[a..] {
        HistoryStartsAt(l, h, k, a, i);
      }
      forall b | a <= b < |p| ensures p[b] in hk {
        HistoryHoldsFrom(l, h, k, a, b);
      }
      SuffixByMembers(hk, p, a);
    }
  }

  /** A key whose publish times never decrease has a suffix of its samples in the history, whatever other keys do. */
  lemma KeyHistoryIsSuffix(c: Codec, cfg: Config, acts: seq<Action>, k: Key)
    requires AdmissibleRun(c, cfg, acts)
    requires cfg.HasLifetime() ==> Monotone(Project(Run(c, cfg, acts).log, k))
    ensures IsSuffix(Project(Run(c, cfg, acts).history, k), Project(Run(c, cfg, acts).log, k))
  {
    RunIsClosed(c, cfg, acts, k, 0);
    RunKeepsInv(c, cfg, acts);
    ClosedIsSuffix(Run(c, cfg, acts).log, Run(c, cfg, acts).history, k);
  }

  // ----- reaping, key by key -----

  lemma CleanOldSnoc(h: seq<Sample>, s: Sample, stale: int)
    ensures CleanOld(h + [s], stale) == CleanOld(h, stale) + if s.timestamp >= stale then [s] else []
  {
    CleanOldConcat(h, [s], stale);
    assert [s][1..] == [];
  }

  lemma {:induction false} ProjectCleanOld(h: seq<Sample>, stale: int, k: Key)
    ensures Project(CleanOld(h, stale), k) == CleanOld(Project(h, k), stale)
  {
    if h != [] {
      var f, s := Front(h), Last(h);
      assert h == f + [s];
      ProjectCleanOld(f, stale, k);
      CleanOldSnoc(f, s, stale);
      CleanOldSnoc(Project(f, k), s, stale);
      ProjectSnoc(CleanOld(f, stale), s, k);
      assert Project(h, k) == if s.key == k then Project(f, k) + [s] else Project(f, k);
      assert CleanOld(h, stale) == if s.timestamp >= stale then CleanOld(f, stale) + [s] else CleanOld(f, stale);
    }
  }

  lemma ProjectReap(cfg: Config, h: seq<Sample>, now: int, k: Key)
    ensures Project(Reap(cfg, h, now), k) == Reap(cfg, Project(h, k), now)
  {
    if cfg.HasLifetime() {
      ProjectCleanOld(h, cfg.StaleTime(now), k);
    }
  }

  /** The history holds the newest samples of the key without a gap, and reaping cannot make one. */
  ghost predicate Gapless(cfg: Config, l: seq<Sample>, h: seq<Sample>, k: Key) {
    IsSuffix(Project(h, k), Project(l, k)) && (cfg.HasLifetime() ==> Monotone(Project(h, k)))
  }

  lemma RunIsGapless(c: Codec, cfg: Config, acts: seq<Action>, k: Key)
    requires AdmissibleRun(c, cfg, acts)
    requires cfg.HasLifetime() ==> Monotone(Project(Run(c, cfg, acts).log, k))
    ensures Gapless(cfg, Run(c, cfg, acts).log, Run(c, cfg, acts).history, k)
  {
    KeyHistoryIsSuffix(c, cfg, acts, k);
  }

  lemma GaplessAfterReap(cfg: Config, l: seq<Sample>, h: seq<Sample>, now: int, k: Key)
    requires Gapless(cfg, l, h, k)
    ensures IsSuffix(Project(Reap(cfg, h, now), k), Project(l, k))
  {
    ProjectReap(cfg, h, now, k);
    ReapIsSuffix(cfg, Project(h, k), now);
    SuffixTransitive(Project(Reap(cfg, h, now), k), Project(h, k), Project(l, k));
  }

  // ----- what is left of a steady key -----

  /** Replaying the samples of one key in turn gives the last one its value: each partial update, back to the last full
      value or the first sample, follows the sample it was applied to. */
  ghost predicate Settles(c: Codec, t: seq<Sample>) {
    |t| <= 1 || !Last(t).event.PartialUpdate? || (Linked(c, t[|t| - 2], Last(t)) && Settles(c, Front(t)))
  }

  lemma SettlesFront(c: Codec, t: seq<Sample>, s: Sample)
    requires Settles(c, t + [s]) && s.event.PartialUpdate?
    ensures t != [] ==> Linked(c, Last(t), s)
    ensures Settles(c, t)
  {
    assert Front(t + [s]) == t;
  }

  lemma {:induction false} ChainedSettles(c: Codec, t: seq<Sample>)
    requires Chained(c, t)
    ensures Settles(c, t)
  {
    if |t| > 1 {
      ChainedSettles(c, Front(t));
    }
  }

  lemma NothingBetween(t: seq<Sample>, y: Sample)
    requires IdsIncrease(t) && |t| > 1 && y in t && y.id < Last(t).id
    ensures y.id <= t[|t| - 2].id
  {
  }

  ghost predicate Within(t: seq<Sample>, p: seq<Sample>) {
    forall i :: 0 <= i < |t| ==> t[i] in p
  }

  /** With a sample of `p` before index `l`, all those after it, from the last full value of `p` to `l`. */
  ghost predicate HoldsLater(p: seq<Sample>, t: seq<Sample>, l: nat)
    requires l < |p|
  {
    forall i, j :: 0 <= i < j <= l && LastFull(p) <= j && p[i] in t ==> p[j] in t
  }

  /** Samples of `p`, up to index `l`, among them all from the last full value of `p` to `l` once there is an earlier
      one. */
  ghost predicate ClosedUpTo(p: seq<Sample>, t: seq<Sample>, l: nat) {
    t != [] && LastFull(p) <= l < |p| && Last(t) == p[l] && Within(t, p) && HoldsLater(p, t, l)
  }

  lemma Predecessor(p: seq<Sample>, t: seq<Sample>, l: nat)
    requires IdsIncrease(p) && IdsIncrease(t) && ClosedUpTo(p, t, l) && |t| > 1 && LastFull(p) < l
    ensures t[|t| - 2] == p[l - 1]
  {
    var x := t[|t| - 2];
    var i :| 0 <= i < |p| && p[i] == x;
    assert x.id < p[l].id && i <= l - 1;
    var y := p[l - 1];
    assert y in t;
    NothingBetween(t, y);
  }

  lemma FrontHoldsLater(p: seq<Sample>, t: seq<Sample>, l: nat)
    requires IdsIncrease(p) && IdsIncrease(t) && t != [] && 0 < l < |p| && Last(t) == p[l] && HoldsLater(p, t, l)
    ensures HoldsLater(p, Front(t), l - 1)
  {
    var f := Front(t);
    forall i, j | 0 <= i < j <= l - 1 && LastFull(p) <= j && p[i] in f ensures p[j] in f {
      FrontMembers(t, p[i]);
      FrontMembers(t, p[j]);
    }
  }

  lemma ClosedFront(p: seq<Sample>, t: seq<Sample>, l: nat)
    requires IdsIncrease(p) && IdsIncrease(t) && ClosedUpTo(p, t, l) && |t| > 1 && LastFull(p) < l
    ensures ClosedUpTo(p, Front(t), l - 1)
  {
    Predecessor(p, t, l);
    FrontHoldsLater(p, t, l);
    assert Within(Front(t), p);
  }

  lemma {:induction false} ClosedSettles(c: Codec, p: seq<Sample>, t: seq<Sample>, l: nat)
    requires IdsIncrease(p) && IdsIncrease(t) && Chained(c, p) && p != [] && !p[0].event.PartialUpdate?
    requires ClosedUpTo(p, t, l)
    ensures Settles(c, t)
    decreases |t|
  {
    if |t| > 1 && Last(t).event.PartialUpdate? {
      LastFullIsLast(p);
      Predecessor(p, t, l);
      assert Linked(c, p[l - 1], p[l]);
      ClosedFront(p, t, l);
      ClosedSettles(c, p, Front(t), l - 1);
    }
  }

  lemma SuffixHoldsLater(kept: seq<Sample>, t: seq<Sample>, x: Sample, y: Sample)
    requires IdsIncrease(kept) && IsSuffix(t, kept) && x in t && y in kept && x.id < y.id
    ensures y in t
  {
    var i :| 0 <= i < |t| && t[i] == x;
    var j :| 0 <= j < |kept| && kept[j] == y;
    var n := |kept| - |t|;
    assert kept[n + i] == x;
    assert j > n + i;
    assert t[j - n] == y;
  }

  lemma EndsWithLast(p: seq<Sample>, kept: seq<Sample>)
    requires IdsIncrease(p) && IdsIncrease(kept) && p != [] && kept != []
    requires Within(kept, p) && ClosedFrom(p, kept, LastFull(p))
    ensures Last(kept) == Last(p)
  {
    var a :| 0 <= a < |p| && p[a] == kept[0];
    assert p[|p| - 1] in kept;
    var b :| 0 <= b < |kept| && kept[b] == Last(p);
    assert Last(kept) in p;
  }

  lemma SuffixIsClosed(p: seq<Sample>, kept: seq<Sample>, t: seq<Sample>)
    requires IdsIncrease(p) && IdsIncrease(kept) && p != [] && ClosedFrom(p, kept, LastFull(p)) && IsSuffix(t, kept)
    ensures HoldsLater(p, t, |p| - 1)
  {
    forall i, j | 0 <= i < j < |p| && LastFull(p) <= j && p[i] in t ensures p[j] in t {
      assert p[i] in kept;
      SuffixHoldsLater(kept, t, p[i], p[j]);
    }
  }

  /** A suffix of what the history holds of a live key, after reaping, ends with its current sample and settles. */
  lemma LiveTailSettles(c: Codec, p: seq<Sample>, kept: seq<Sample>, t: seq<Sample>)
    requires IdsIncrease(p) && IdsIncrease(kept) && Chained(c, p) && p != [] && !p[0].event.PartialUpdate?
    requires Within(kept, p) && ClosedFrom(p, kept, LastFull(p))
    requires IsSuffix(t, kept) && t != []
    ensures Last(t) == Last(p) && Settles(c, t)
  {
    EndsWithLast(p, kept);
    SuffixIsClosed(p, kept, t);
    forall i | 0 <= i < |t| ensures t[i] in p {
      assert t[i] == kept[|kept| - |t| + i];
    }
    ClosedSettles(c, p, t, |p| - 1);
  }

  lemma LastHasGreatestId(r: seq<Sample>, y: Sample)
    requires IdsIncrease(r) && y in r
    ensures y.id <= Last(r).id
  {
  }

  /** Reaping a live key that is steady keeps its closure. */
  lemma SteadyLiveReaped(cfg: Config, p: seq<Sample>, h: seq<Sample>, now: int)
    requires SteadyLive(cfg, p, h)
    ensures ClosedFrom(p, Reap(cfg, h, now), LastFull(p))
  {
    forall i, j | 0 <= i < j < |p| && LastFull(p) <= j && p[i] in Reap(cfg, h, now) ensures p[j] in Reap(cfg, h, now) {
      ReapMembers(cfg, h, now, p[i]);
      ReapMembers(cfg, h, now, p[j]);
    }
  }

  /** Reaping a removed key that is steady leaves a remove as its newest sample, or nothing. */
  lemma SteadyGoneReaped(cfg: Config, hk: seq<Sample>, now: int)
    requires IdsIncrease(hk) && SteadyGone(cfg, hk) && Reap(cfg, hk, now) != []
    ensures Last(Reap(cfg, hk, now)).event.Remove?
  {
    var r := Reap(cfg, hk, now);
    var s := Last(r);
    ReapMembers(cfg, hk, now, s);
    ReapDrawn(cfg, hk, hk, now);
    var i :| 0 <= i < |hk| && hk[i] == s;
    if !s.event.Remove? {
      var j :| IsOutlived(cfg, hk, i, j);
      ReapMembers(cfg, hk, now, hk[j]);
      LastHasGreatestId(r, hk[j]);
    }
  }

  lemma KeptIsClosed(l: seq<Sample>, h: seq<Sample>, k: Key)
    requires Drawn(h, l) && ClosedFrom(Project(l, k), h, LastFull(Project(l, k)))
    ensures ClosedFrom(Project(l, k), Project(h, k), LastFull(Project(l, k)))
    ensures Within(Project(h, k), Project(l, k))
  {
    var p, kept := Project(l, k), Project(h, k);
    forall i | 0 <= i < |kept| ensures kept[i] in p {
      var _ := DrawnMember(h, l, k, i);
    }
    forall i, j | 0 <= i < j < |p| && LastFull(p) <= j && p[i] in kept ensures p[j] in kept {
      ProjectMembers(h, k, p[i]);
      ProjectMembers(l, k, p[j]);
      ProjectMembers(h, k, p[j]);
    }
  }
}
