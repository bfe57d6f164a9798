/** What a writer's run does, apart from the values: it depends neither on the codec nor on the values published. */
module Shapes {
  import opened Samples
  import opened History
  import opened PublishLog
  import opened KeyOrder

  function Bare(s: Sample): Sample {
    s.(value := None)
  }

  /** The same samples but for their values. */
  ghost predicate Alike(a: seq<Sample>, b: seq<Sample>) {
    |a| == |b| && forall i :: 0 <= i < |a| ==> Bare(a[i]) == Bare(b[i])
  }

  /** The same action but for the full value it publishes. */
  predicate SameShape(a: Action, b: Action) {
    if a.ReapAt? || b.ReapAt? then a == b
    else a.id == b.id && a.now == b.now && Bare(a.draft) == Bare(b.draft)
  }

  ghost predicate SameShapes(acts: seq<Action>, acts': seq<Action>) {
    |acts| == |acts'| && forall i :: 0 <= i < |acts| ==> SameShape(acts[i], acts'[i])
  }

  lemma AlikeSnoc(a: seq<Sample>, b: seq<Sample>, s: Sample, t: Sample)
    requires Alike(a, b) && Bare(s) == Bare(t)
    ensures Alike(a + [s], b + [t])
  {
  }

  lemma {:induction false} CleanOldAlike(a: seq<Sample>, b: seq<Sample>, stale: int)
    requires Alike(a, b)
    ensures Alike(CleanOld(a, stale), CleanOld(b, stale))
  {
    if a != [] {
      assert Bare(a[0]) == Bare(b[0]) && a[0].timestamp == b[0].timestamp;
      CleanOldAlike(a[1..], b[1..], stale);
    }
  }

  lemma AppendAlike(cfg: Config, a: seq<Sample>, b: seq<Sample>, s: Sample, t: Sample, now: int)
    requires Alike(a, b) && Bare(s) == Bare(t)
    ensures Alike(Append(cfg, a, s, now), Append(cfg, b, t, now))
  {
    if cfg.HasLifetime() {
      CleanOldAlike(a, b, cfg.StaleTime(now));
    }
    assert s.event == t.event;
    var x, y := Reap(cfg, a, now), Reap(cfg, b, now);
    assert Alike(x, y);
    assert x != [] ==> Alike(x[1..], y[1..]);
  }

  lemma {:induction false} ProjectAlike(a: seq<Sample>, b: seq<Sample>, k: Key)
    requires Alike(a, b)
    ensures Alike(Project(a, k), Project(b, k))
  {
    if a != [] {
      assert Bare(Last(a)) == Bare(Last(b));
      ProjectAlike(Front(a), Front(b), k);
      if Last(a).key == k {
        AlikeSnoc(Project(Front(a), k), Project(Front(b), k), Last(a), Last(b));
      }
    }
  }

  lemma LastAlike(a: seq<Sample>, b: seq<Sample>)
    requires Alike(a, b) && a != []
    ensures b != [] && Bare(Last(a)) == Bare(Last(b)) && Last(a).event == Last(b).event
  {
  }

  lemma CurrentAlike(a: seq<Sample>, b: seq<Sample>, k: Key)
    requires Alike(a, b)
    ensures k in Current(a) <==> k in Current(b)
  {
    CurrentIsNewest(a, k);
    CurrentIsNewest(b, k);
    ProjectAlike(a, b, k);
    if Project(a, k) != [] {
      LastAlike(Project(a, k), Project(b, k));
    }
  }

  lemma CurrentHasValue(c: Codec, l: seq<Sample>, k: Key)
    requires WellFormed(c, l) && k in Current(l)
    ensures Current(l)[k].value.Some?
  {
    CurrentIsNewest(l, k);
    assert KeyWellFormed(c, l, k);
  }

  /** Whether a draft is published does not depend on the values. */
  lemma ResolveAlike(c: Codec, c': Codec, l: seq<Sample>, l': seq<Sample>, a: Sample, b: Sample)
    requires Alike(l, l') && WellFormed(c, l) && WellFormed(c', l') && Bare(a) == Bare(b)
    ensures ResolveDraft(c, Current(l), a).Some? <==> ResolveDraft(c', Current(l'), b).Some?
    ensures ResolveDraft(c, Current(l), a).Some? ==>
      Bare(ResolveDraft(c, Current(l), a).value) == Bare(ResolveDraft(c', Current(l'), b).value)
  {
    assert a.key == b.key && a.event == b.event;
    CurrentAlike(l, l', a.key);
    if a.key in Current(l) {
      CurrentHasValue(c, l, a.key);
      CurrentHasValue(c', l', a.key);
    }
  }

  ghost predicate AlikeStates(st: WriterState, st': WriterState) {
    Alike(st.log, st'.log) && Alike(st.history, st'.history)
  }

  lemma StepAlike(c: Codec, c': Codec, cfg: Config, st: WriterState, st': WriterState, a: Action, a': Action)
    requires AlikeStates(st, st') && WellFormed(c, st.log) && WellFormed(c', st'.log) && SameShape(a, a')
    ensures AlikeStates(Step(c, cfg, st, a), Step(c', cfg, st', a'))
  {
    if a.ReapAt? {
      if cfg.HasLifetime() {
        CleanOldAlike(st.history, st'.history, cfg.StaleTime(a.now));
      }
    } else {
      ResolveAlike(c, c', st.log, st'.log, a.draft, a'.draft);
      if ResolveDraft(c, Current(st.log), a.draft).Some? {
        var s := ResolveDraft(c, Current(st.log), a.draft).value.(id := a.id, timestamp := a.now);
        var s' := ResolveDraft(c', Current(st'.log), a'.draft).value.(id := a.id, timestamp := a.now);
        assert Bare(s) == Bare(s');
        AlikeSnoc(st.log, st'.log, s, s');
        AppendAlike(cfg, st.history, st'.history, s, s', a.now);
      }
    }
  }

  lemma AdmissibleAlike(st: WriterState, st': WriterState, a: Action, a': Action)
    requires AlikeStates(st, st') && SameShape(a, a') && Admissible(st, a)
    ensures Admissible(st', a')
  {
    if st.log != [] {
      LastAlike(st.log, st'.log);
      assert Bare(Last(st.log)).id == Bare(Last(st'.log)).id;
    }
  }

  /** Two runs with the same actions, up to the full values published and the codec, leave the same samples in the log
      and in the history. */
  lemma {:induction false} RunsAlike(c: Codec, c': Codec, cfg: Config, acts: seq<Action>, acts': seq<Action>)
    requires SameShapes(acts, acts') && AdmissibleRun(c, cfg, acts)
    ensures AdmissibleRun(c', cfg, acts')
    ensures AlikeStates(Run(c, cfg, acts), Run(c', cfg, acts'))
  {
    if acts != [] {
      AdmissibleFront(c, cfg, acts);
      RunsAlike(c, c', cfg, Front(acts), Front(acts'));
      RunKeepsInv(c, cfg, Front(acts));
      RunKeepsInv(c', cfg, Front(acts'));
      var st, st' := Run(c, cfg, Front(acts)), Run(c', cfg, Front(acts'));
      StepAlike(c, c', cfg, st, st', Last(acts), Last(acts'));
      AdmissibleAlike(st, st', Last(acts), Last(acts'));
      AdmissibleSnoc(c', cfg, acts');
    }
  }

  // ----- steadiness -----

  lemma HeldAlike(h: seq<Sample>, h': seq<Sample>, l': seq<Sample>, x: Sample, x': Sample)
    requires Alike(h, h') && Drawn(h', l') && IdsIncrease(l') && x in h && x' in l' && x.id == x'.id
    ensures x' in h'
  {
    var j :| 0 <= j < |h| && h[j] == x;
    assert Bare(h[j]).id == Bare(h'[j]).id;
    assert h'[j] in l';
  }

  lemma {:induction false} LastFullAlike(p: seq<Sample>, p': seq<Sample>)
    requires Alike(p, p')
    ensures LastFull(p) == LastFull(p')
  {
    if p != [] {
      LastAlike(p, p');
      LastFullAlike(Front(p), Front(p'));
    }
  }

  lemma SteadyLiveAlike(cfg: Config, l: seq<Sample>, l': seq<Sample>, h: seq<Sample>, h': seq<Sample>, k: Key)
    requires Alike(l, l') && Alike(h, h') && IdsIncrease(l) && IdsIncrease(l') && Drawn(h, l) && Drawn(h', l')
    requires SteadyLive(cfg, Project(l, k), h)
    ensures SteadyLive(cfg, Project(l', k), h')
  {
    var p, p' := Project(l, k), Project(l', k);
    ProjectAlike(l, l', k);
    LastFullAlike(p, p');
    forall i, j | 0 <= i < j < |p'| && LastFull(p') <= j && p'[i] in h'
      ensures p'[j] in h' && NotOlder(cfg, p'[i], p'[j])
    {
      assert Bare(p[i]) == Bare(p'[i]) && Bare(p[j]) == Bare(p'[j]);
      ProjectMembers(l, k, p[i]);
      ProjectMembers(l', k, p'[j]);
      HeldAlike(h', h, l, p'[i], p[i]);
      HeldAlike(h, h', l', p[j], p'[j]);
    }
  }

  lemma SteadyGoneAlike(cfg: Config, hk: seq<Sample>, hk': seq<Sample>)
    requires Alike(hk, hk') && SteadyGone(cfg, hk)
    ensures SteadyGone(cfg, hk')
  {
    forall i | 0 <= i < |hk'| && !hk'[i].event.Remove? ensures exists j :: IsOutlived(cfg, hk', i, j) {
      assert Bare(hk[i]) == Bare(hk'[i]) && hk[i].event == hk'[i].event;
      var j :| IsOutlived(cfg, hk, i, j);
      assert Bare(hk[j]) == Bare(hk'[j]) && hk[j].event == hk'[j].event;
      assert IsOutlived(cfg, hk', i, j);
    }
  }

  /** Being steady is a matter of the events and times, not of the values. */
  lemma SteadyAlike(cfg: Config, l: seq<Sample>, l': seq<Sample>, h: seq<Sample>, h': seq<Sample>, k: Key)
    requires Alike(l, l') && Alike(h, h') && IdsIncrease(l) && IdsIncrease(l') && Drawn(h, l) && Drawn(h', l')
    requires Steady(cfg, l, h, k)
    ensures Steady(cfg, l', h', k)
  {
    ProjectAlike(l, l', k);
    ProjectAlike(h, h', k);
    if Project(l, k) != [] {
      LastAlike(Project(l, k), Project(l', k));
    }
    if IsLive(Project(l, k)) {
      SteadyLiveAlike(cfg, l, l', h, h', k);
    } else {
      SteadyGoneAlike(cfg, Project(h, k), Project(h', k));
    }
  }
}
