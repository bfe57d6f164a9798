/** The bounded sample history kept by writers and readers. */
module History {
  import opened Samples

  ghost predicate IsSuffix<T>(a: seq<T>, b: seq<T>) {
    |a| <= |b| && a == b[|b| - |a|..]
  }

  lemma SuffixTransitive<T>(a: seq<T>, b: seq<T>, c: seq<T>)
    requires IsSuffix(a, b) && IsSuffix(b, c)
    ensures IsSuffix(a, c)
  {
  }

  lemma SuffixSnoc<T>(a: seq<T>, b: seq<T>, x: T)
    requires IsSuffix(a, b)
    ensures IsSuffix(a + [x], b + [x])
  {
  }

  /** cleanOldSamples: drops every sample older than `stale`, keeping the order of the others. */
  function CleanOld(h: seq<Sample>, stale: int): (r: seq<Sample>)
    ensures |r| <= |h|
  {
    if h == [] then []
    else (if h[0].timestamp >= stale then [h[0]] else []) + CleanOld(h[1..], stale)
  }

  function Reap(cfg: Config, h: seq<Sample>, now: int): (r: seq<Sample>)
    ensures |r| <= |h|
  {
    if cfg.HasLifetime() then CleanOld(h, cfg.StaleTime(now)) else h
  }

  /** Makes room for one sample, applies the clear policy and appends the sample. */
  function Push(cfg: Config, h: seq<Sample>, s: Sample): seq<Sample> {
    if cfg.KeepsNoHistory() then h
    else
      var room := if cfg.Bounded() && |h| + 1 > cfg.sampleCount.value && h != [] then h[1..] else h;
      (if cfg.Clears(s.event) then [] else room) + [s]
  }

  /** Adds one sample to a history, reaping the stale ones first. */
  function Append(cfg: Config, h: seq<Sample>, s: Sample, now: int): seq<Sample> {
    Push(cfg, Reap(cfg, h, now), s)
  }

  // ----- said from the configuration -----

  /** The sample is not older than the lifetime, which is in milliseconds; there is none unless it is positive. */
  predicate IsFresh(cfg: Config, s: Sample, now: int) {
    cfg.sampleLifetime.None? || cfg.sampleLifetime.value <= 0 || now - s.timestamp <= 1000 * cfg.sampleLifetime.value
  }

  /** The events each clear policy names. */
  predicate ClearedBy(policy: Option<ClearPolicy>, e: Event) {
    match policy
    case None => false
    case Some(Never) => false
    case Some(OnAdd) => e.Add?
    case Some(OnRemove) => e.Remove?
    case Some(OnAll) => true
    case Some(OnAllExceptPartialUpdate) => !e.PartialUpdate?
  }

  /** How many of `n` samples stay when one is added; a count that is not positive is no limit. */
  function Room(count: Option<int>, n: nat): nat {
    if count.Some? && 0 < count.value <= n then count.value - 1 else n
  }

  function Young(cfg: Config, h: seq<Sample>, now: int): (r: seq<Sample>)
    ensures |r| <= |h|
  {
    if h == [] then []
    else Young(cfg, h[..|h| - 1], now) + if IsFresh(cfg, h[|h| - 1], now) then [h[|h| - 1]] else []
  }

  /** The newest `n` samples. */
  function Tail(h: seq<Sample>, n: nat): seq<Sample>
    requires n <= |h|
  {
    h[|h| - n..]
  }

  /** The history after a sample was added: the fresh samples that the count leaves room for, or none if the policy
      clears on the sample, and then the sample. With a count of zero nothing is added. */
  predicate AppendOutcome(cfg: Config, h: seq<Sample>, s: Sample, now: int, h': seq<Sample>) {
    var young := Young(cfg, h, now);
    if cfg.sampleCount == Some(0) then h' == young
    else h' == Tail(young, if ClearedBy(cfg.clearHistory, s.event) then 0 else Room(cfg.sampleCount, |young|)) + [s]
  }

  ghost predicate Monotone(h: seq<Sample>) {
    forall i, j :: 0 <= i < j < |h| ==> h[i].timestamp <= h[j].timestamp
  }

  ghost predicate AlwaysReapsPrefix(h: seq<Sample>) {
    forall stale :: IsSuffix(CleanOld(h, stale), h)
  }

  lemma {:induction false} CleanOldKeepsAll(h: seq<Sample>, stale: int)
    requires forall i :: 0 <= i < |h| ==> h[i].timestamp >= stale
    ensures CleanOld(h, stale) == h
  {
    if h != [] {
      CleanOldKeepsAll(h[1..], stale);
    }
  }

  lemma {:induction false} CleanOldIsSuffix(h: seq<Sample>, stale: int)
    requires Monotone(h)
    ensures IsSuffix(CleanOld(h, stale), h)
  {
    if h == [] {
    } else if h[0].timestamp >= stale {
      CleanOldKeepsAll(h, stale);
    } else {
      CleanOldIsSuffix(h[1..], stale);
    }
  }

  lemma {:induction false} CleanOldConcat(a: seq<Sample>, b: seq<Sample>, stale: int)
    ensures CleanOld(a + b, stale) == CleanOld(a, stale) + CleanOld(b, stale)
  {
    if a == [] {
      assert a + b == b;
    } else {
      assert (a + b)[0] == a[0] && (a + b)[1..] == a[1..] + b;
      CleanOldConcat(a[1..], b, stale);
      var head := if a[0].timestamp >= stale then [a[0]] else [];
      assert CleanOld(a + b, stale) == head + CleanOld(a[1..] + b, stale);
      assert head + (CleanOld(a[1..], stale) + CleanOld(b, stale)) ==
        (head + CleanOld(a[1..], stale)) + CleanOld(b, stale);
    }
  }

  lemma {:induction false} CleanOldMembers(h: seq<Sample>, stale: int, s: Sample)
    ensures s in CleanOld(h, stale) <==> s in h && s.timestamp >= stale
  {
    if h != [] {
      CleanOldMembers(h[1..], stale, s);
    }
  }

  lemma SteppingBackLeavesHole(h: seq<Sample>, i: nat, j: nat)
    requires i < j < |h| && h[i].timestamp > h[j].timestamp
    ensures !AlwaysReapsPrefix(h)
  {
    var stale := h[i].timestamp;
    var kept := CleanOld(h, stale);
    var start := |h| - |kept|;
    if start <= j {
      CleanOldMembers(h, stale, h[j]);
      assert h[start..][j - start] == h[j];
    } else {
      assert h == h[..start] + h[start..];
      assert h[..start][i] == h[i];
      CleanOldMembers(h[..start], stale, h[i]);
      CleanOldConcat(h[..start], h[start..], stale);
      if t :| start <= t < |h| && h[t].timestamp < stale {
        CleanOldMembers(h, stale, h[t]);
        assert h[start..][t - start] == h[t];
      } else {
        CleanOldKeepsAll(h[start..], stale);
      }
    }
  }

  /** Reaping drops a prefix of the history, at whatever time it runs, exactly when no sample is older than one
      published before it: a clock that steps back leaves a hole instead. */
  lemma ReapsPrefixIffMonotone(h: seq<Sample>)
    ensures AlwaysReapsPrefix(h) <==> Monotone(h)
  {
    if Monotone(h) {
      forall stale ensures IsSuffix(CleanOld(h, stale), h) {
        CleanOldIsSuffix(h, stale);
      }
    }
    if !Monotone(h) {
      var i, j :| 0 <= i < j < |h| && h[i].timestamp > h[j].timestamp;
      SteppingBackLeavesHole(h, i, j);
    }
  }

  lemma {:induction false} ReapIsYoung(cfg: Config, h: seq<Sample>, now: int)
    ensures Reap(cfg, h, now) == Young(cfg, h, now)
  {
    if h != [] {
      var f, s := h[..|h| - 1], h[|h| - 1];
      assert h == f + [s];
      ReapIsYoung(cfg, f, now);
      if cfg.HasLifetime() {
        CleanOldConcat(f, [s], cfg.StaleTime(now));
        assert [s][1..] == [];
      }
    }
  }

  /** What adding a sample does to a history within its count. */
  lemma AppendMeans(cfg: Config, h: seq<Sample>, s: Sample, now: int)
    requires cfg.sampleCount.Some? && cfg.sampleCount.value > 0 ==> |h| <= cfg.sampleCount.value
    ensures AppendOutcome(cfg, h, s, now, Append(cfg, h, s, now))
  {
    ReapIsYoung(cfg, h, now);
    assert cfg.Clears(s.event) <==> ClearedBy(cfg.clearHistory, s.event);
  }
}
