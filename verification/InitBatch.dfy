/** The initialization batch a writer builds for an attaching reader, as a function of its log and history. */
module InitBatch {
  import opened Samples
  import opened History
  import opened PublishLog

  /** What the attaching reader asks for. A null key asks for every key; a filter that throws counts as false. */
  datatype Query = Query(key: Option<Key>, filter: Sample -> bool, config: Config, lastId: int, now: int)
  {
    predicate WantsKey(k: Key) {
      key.None? || key.value == k
    }

    predicate Matches(s: Sample) {
      WantsKey(s.key) && filter(s)
    }

    predicate Stale(s: Sample) {
      config.HasLifetime() && s.timestamp < config.StaleTime(now)
    }

    ghost predicate Unfiltered() {
      forall s :: filter(s)
    }
  }

  /** Walks the history from the newest sample. Stops at a stale or already received sample, once the reader's count
      is collected, or after a sample that clears the reader's history. */
  function Scan(h: seq<Sample>, q: Query, taken: nat): seq<Sample> {
    if h == [] || q.Stale(Last(h)) || Last(h).id <= q.lastId then []
    else if !q.Matches(Last(h)) then Scan(Front(h), q, taken)
    else if (q.config.Bounded() && q.config.sampleCount.value == taken + 1) || q.config.Clears(Last(h).event) then
      [Last(h)]
    else Scan(Front(h), q, taken + 1) + [Last(h)]
  }

  /** A reader that keeps no history is sent the bases only. */
  function Scanned(h: seq<Sample>, q: Query): seq<Sample> {
    if q.config.KeepsNoHistory() then [] else Scan(h, q, 0)
  }

  function KeySet(l: seq<Sample>): set<Key> {
    set i | 0 <= i < |l| :: l[i].key
  }

  /** A key's current sample the reader still needs as a base. */
  predicate IsBase(q: Query, covered: set<Key>, s: Sample) {
    s.id > q.lastId && s.value.Some? && q.Matches(s) && s.key !in covered
  }

  function Bases(bases: map<Key, Sample>, q: Query, covered: set<Key>): set<Sample> {
    set k | k in bases && IsBase(q, covered, bases[k]) :: bases[k]
  }

  /** The elements of `l` that are in `chosen`, in order. */
  function Keep(l: seq<Sample>, chosen: set<Sample>): seq<Sample> {
    if l == [] then [] else Keep(Front(l), chosen) + (if Last(l) in chosen then [Last(l)] else [])
  }

  /** The scanned samples and the missing bases, in id order. */
  function Sources(l: seq<Sample>, scanned: seq<Sample>, q: Query): seq<Sample> {
    Keep(l, (set s | s in scanned) + Bases(Current(l), q, KeySet(scanned)))
  }

  /** Keeps the newest sample of each key not in `seen`, and the `budget` newest of the others. */
  function CapFrom(src: seq<Sample>, seen: set<Key>, budget: nat): seq<Sample> {
    if src == [] then []
    else if Last(src).key !in seen then CapFrom(Front(src), seen + {Last(src).key}, budget) + [Last(src)]
    else if budget > 0 then CapFrom(Front(src), seen, budget - 1) + [Last(src)]
    else CapFrom(Front(src), seen, 0)
  }

  /** What is left of a maximum once every key has one sample. */
  function Budget(max: nat, src: seq<Sample>): nat {
    if max > |KeySet(src)| then max - |KeySet(src)| else 0
  }

  function Cap(config: Config, src: seq<Sample>): seq<Sample> {
    if !config.Bounded() || |src| <= config.sampleCount.value then src
    else CapFrom(src, {}, Budget(config.sampleCount.value, src))
  }

  ghost predicate AllSound(l: seq<Sample>) {
    forall i :: 0 <= i < |l| ==> Sound(l[i])
  }

  /** The wire form: the first sample of each key carries a full value. */
  function Deliver(c: Codec, src: seq<Sample>): (r: seq<DataSample>)
    requires AllSound(src)
    ensures |r| == |src|
  {
    if src == [] then []
    else Deliver(c, Front(src)) + [
      if Last(src).event.PartialUpdate? && Last(src).key !in KeySet(Front(src)) then ToFullWire(c, Last(src))
      else ToWire(c, Last(src))]
  }

  predicate FirstOfKey(src: seq<Sample>, i: nat)
    requires i < |src|
  {
    forall j :: 0 <= j < i ==> src[j].key != src[i].key
  }

  /** The bytes that stand for a value, or for an update that was encoded. */
  predicate IsPayload(c: Codec, s: Sample, full: bool, bytes: Bytes) {
    if s.event.Remove? then bytes == []
    else if s.event.PartialUpdate? && !full && s.encoded != [] then bytes == s.encoded
    else s.value.Some? && bytes == c.encode(s.value.value)
  }

  /** `w` is what is sent for the i-th sample: the sample itself, but a partial update that is the first of its key as
      an update with the full value and no tag. */
  predicate Delivers(c: Codec, src: seq<Sample>, i: nat, w: DataSample)
    requires i < |src|
  {
    var s := src[i];
    var full := s.event.PartialUpdate? && FirstOfKey(src, i);
    && w.id == s.id && w.key == s.key && w.timestamp == s.timestamp
    && w.event == (if full then Update else s.event)
    && w.tag == (if full then 0 else s.tag)
    && IsPayload(c, s, full, w.value)
  }

  lemma FirstOfKeyIsNew(src: seq<Sample>)
    requires src != []
    ensures FirstOfKey(src, |src| - 1) <==> Last(src).key !in KeySet(Front(src))
  {
    var f, k := Front(src), Last(src).key;
    if !FirstOfKey(src, |src| - 1) {
      var j :| 0 <= j < |src| - 1 && src[j].key == k;
      assert f[j].key in KeySet(f);
    }
  }

  lemma {:induction false} DeliveredForm(c: Codec, src: seq<Sample>, i: nat)
    requires AllSound(src) && i < |src|
    ensures Delivers(c, src, i, Deliver(c, src)[i])
  {
    if i < |src| - 1 {
      DeliveredForm(c, Front(src), i);
      assert Front(src)[i] == src[i] && (FirstOfKey(Front(src), i) <==> FirstOfKey(src, i));
    } else {
      FirstOfKeyIsNew(src);
    }
  }

  /** The samples the batch is made of. */
  function Chosen(l: seq<Sample>, h: seq<Sample>, q: Query): seq<Sample> {
    Cap(q.config, Sources(l, Scanned(h, q), q))
  }

  // ----- what the reader already has -----

  /** The end of the history the reader has not received. */
  function Newer(h: seq<Sample>, lastId: int): seq<Sample> {
    if h == [] || Last(h).id <= lastId then [] else Newer(Front(h), lastId) + [Last(h)]
  }

  lemma {:induction false} NewerIsSuffix(h: seq<Sample>, lastId: int)
    ensures IsSuffix(Newer(h, lastId), h)
  {
    if h != [] {
      NewerIsSuffix(Front(h), lastId);
    }
  }

  lemma ReapSnoc(cfg: Config, h: seq<Sample>, s: Sample, now: int)
    ensures Reap(cfg, h + [s], now) ==
      if cfg.HasLifetime() && s.timestamp < cfg.StaleTime(now) then Reap(cfg, h, now) else Reap(cfg, h, now) + [s]
  {
    if cfg.HasLifetime() {
      CleanOldConcat(h, [s], cfg.StaleTime(now));
      assert [s][1..] == [];
    }
  }

  lemma ScanOfReceived(cfg: Config, h: seq<Sample>, q: Query, taken: nat)
    requires IdsIncrease(h) && h != [] && Last(h).id <= q.lastId
    ensures Scan(Reap(cfg, h, q.now), q, taken) == []
  {
    var r := Reap(cfg, h, q.now);
    if r != [] {
      var s := Last(r);
      if cfg.HasLifetime() {
        CleanOldMembers(h, cfg.StaleTime(q.now), s);
      }
      assert s in h;
      var i :| 0 <= i < |h| && h[i] == s;
      assert s.id <= h[|h| - 1].id;
    }
  }

  lemma ScanSnoc(h: seq<Sample>, s: Sample, q: Query, taken: nat)
    ensures Scan(h + [s], q, taken) ==
      if q.Stale(s) || s.id <= q.lastId then []
      else if !q.Matches(s) then Scan(h, q, taken)
      else if (q.config.Bounded() && q.config.sampleCount.value == taken + 1) || q.config.Clears(s.event) then [s]
      else Scan(h, q, taken + 1) + [s]
  {
    assert Front(h + [s]) == h;
  }

  lemma ScansAlike(a: seq<Sample>, b: seq<Sample>, s: Sample, q: Query, taken: nat)
    requires Scan(a, q, taken) == Scan(b, q, taken) && Scan(a, q, taken + 1) == Scan(b, q, taken + 1)
    ensures Scan(a + [s], q, taken) == Scan(b + [s], q, taken)
  {
    ScanSnoc(a, s, q, taken);
    ScanSnoc(b, s, q, taken);
  }

  /** The scan never looks at what the reader already has. */
  lemma {:induction false} ScanNewer(cfg: Config, h: seq<Sample>, q: Query, taken: nat)
    requires IdsIncrease(h)
    ensures Scan(Reap(cfg, Newer(h, q.lastId), q.now), q, taken) == Scan(Reap(cfg, h, q.now), q, taken)
  {
    if h != [] && Last(h).id <= q.lastId {
      ScanOfReceived(cfg, h, q, taken);
      assert Newer(h, q.lastId) == [] && Reap(cfg, [], q.now) == [];
    } else if h != [] {
      var f, s := Front(h), Last(h);
      assert h == f + [s];
      ScanNewer(cfg, f, q, taken);
      ScanNewer(cfg, f, q, taken + 1);
      ReapSnoc(cfg, f, s, q.now);
      ReapSnoc(cfg, Newer(f, q.lastId), s, q.now);
      ScansAlike(Reap(cfg, Newer(f, q.lastId), q.now), Reap(cfg, f, q.now), s, q, taken);
    }
  }

  // ----- per-key shape of each stage -----

  lemma {:induction false} ProjectEmptyIffNoKey(l: seq<Sample>, k: Key)
    ensures Project(l, k) == [] <==> k !in KeySet(l)
  {
    if l != [] {
      ProjectEmptyIffNoKey(Front(l), k);
      assert l == Front(l) + [Last(l)];
      if k in KeySet(Front(l)) {
        var i :| 0 <= i < |Front(l)| && Front(l)[i].key == k;
        assert l[i].key == k;
      }
    }
  }

  /** The reader asked for the sample's key, or for all keys, and its sample filter accepts the sample. */
  predicate AskedFor(q: Query, s: Sample) {
    (q.key.None? || q.key.value == s.key) && q.filter(s)
  }

  function Select(h: seq<Sample>, q: Query): seq<Sample> {
    if h == [] then [] else Select(Front(h), q) + if AskedFor(q, Last(h)) then [Last(h)] else []
  }

  /** The samples the filter accepts, of whatever key. */
  function Passing(h: seq<Sample>, filter: Sample -> bool): seq<Sample> {
    if h == [] then [] else Passing(Front(h), filter) + if filter(Last(h)) then [Last(h)] else []
  }

  lemma {:induction false} PassingAll(h: seq<Sample>, filter: Sample -> bool)
    requires forall i :: 0 <= i < |h| ==> filter(h[i])
    ensures Passing(h, filter) == h
  {
    if h != [] {
      var f, s := Front(h), Last(h);
      assert h == f + [s] && filter(h[|h| - 1]);
      PassingAll(f, filter);
    }
  }

  lemma {:induction false} PassingMembers(h: seq<Sample>, filter: Sample -> bool, s: Sample)
    ensures s in Passing(h, filter) <==> s in h && filter(s)
  {
    if h != [] {
      assert h == Front(h) + [Last(h)];
      PassingMembers(Front(h), filter, s);
    }
  }

  /** A count limits the history unless it is absent, zero or negative; zero means no history at all. */
  predicate HasCount(cfg: Config) {
    cfg.sampleCount.Some? && cfg.sampleCount.value > 0
  }

  /** The suffix of `h` from `start` on holds nothing stale or already received, at most what is left of the reader's
      count of matches, and no clearing match but its oldest. */
  ghost predicate Scannable(h: seq<Sample>, q: Query, taken: nat, start: nat) {
    && start <= |h|
    && (forall i :: start <= i < |h| ==> IsFresh(q.config, h[i], q.now) && h[i].id > q.lastId)
    && var r := Select(h[start..], q);
      && (HasCount(q.config) ==> taken + |r| <= q.config.sampleCount.value)
      && (forall i :: 0 < i < |r| ==> !ClearedBy(q.config.clearHistory, r[i].event))
  }

  /** It could not be extended by one sample. */
  ghost predicate Maximal(h: seq<Sample>, q: Query, taken: nat, start: nat)
    requires start <= |h|
  {
    var r := Select(h[start..], q);
    || start == 0
    || !IsFresh(q.config, h[start - 1], q.now)
    || h[start - 1].id <= q.lastId
    || (HasCount(q.config) && taken + |r| == q.config.sampleCount.value)
    || (r != [] && ClearedBy(q.config.clearHistory, r[0].event))
  }

  lemma SelectSnoc(h: seq<Sample>, q: Query, start: nat)
    requires h != [] && start <= |h| - 1
    ensures Select(h[start..], q) == Select(Front(h)[start..], q) + if q.Matches(Last(h)) then [Last(h)] else []
  {
    assert Front(h[start..]) == Front(h)[start..];
  }

  /** The scan goes on past the newest sample. */
  predicate GoesOn(h: seq<Sample>, q: Query, taken: nat)
    requires h != []
  {
    && !q.Stale(Last(h)) && Last(h).id > q.lastId
    && (q.Matches(Last(h)) ==>
        !(q.config.Bounded() && q.config.sampleCount.value == taken + 1) && !q.config.Clears(Last(h).event))
  }

  function Taken(h: seq<Sample>, q: Query, taken: nat): nat
    requires h != []
  {
    if q.Matches(Last(h)) then taken + 1 else taken
  }

  lemma ScannableStep(h: seq<Sample>, q: Query, taken: nat, start: nat)
    requires h != [] && GoesOn(h, q, taken) && Scannable(Front(h), q, Taken(h, q, taken), start)
    ensures Scannable(h, q, taken, start)
  {
    SelectSnoc(h, q, start);
    var r, older := Select(h[start..], q), Select(Front(h)[start..], q);
    forall i | 0 < i < |r| ensures !q.config.Clears(r[i].event) {
      assert i < |older| ==> r[i] == older[i];
    }
  }

  lemma MaximalStep(h: seq<Sample>, q: Query, taken: nat, start: nat)
    requires h != [] && start <= |h| - 1 && Maximal(Front(h), q, Taken(h, q, taken), start)
    ensures Maximal(h, q, taken, start)
  {
    SelectSnoc(h, q, start);
  }

  /** The scan, said without its loop: it selects the matching samples of a scannable suffix of the history that could
      not be extended. */
  lemma {:induction false} ScanSpec(h: seq<Sample>, q: Query, taken: nat) returns (start: nat)
    requires HasCount(q.config) ==> taken < q.config.sampleCount.value
    ensures Scannable(h, q, taken, start) && Maximal(h, q, taken, start)
    ensures Scan(h, q, taken) == Select(h[start..], q)
  {
    if h == [] || q.Stale(Last(h)) || Last(h).id <= q.lastId {
      start := |h|;
    } else if GoesOn(h, q, taken) {
      start := ScanSpec(Front(h), q, Taken(h, q, taken));
      ScannableStep(h, q, taken, start);
      MaximalStep(h, q, taken, start);
      SelectSnoc(h, q, start);
    } else {
      start := |h| - 1;
      SelectSnoc(h, q, start);
      assert Front(h)[start..] == [];
    }
  }

  lemma TailSnoc(older: seq<Sample>, f: seq<Sample>, s: Sample, k: Key)
    requires IsSuffix(Project(older, k), Project(f, k))
    ensures IsSuffix(Project(older + [s], k), Project(f + [s], k))
  {
    ProjectSnoc(older, s, k);
    ProjectSnoc(f, s, k);
    SuffixSnoc(Project(older, k), Project(f, k), s);
  }

  /** A sample that is not selected: either the filter rejects it, or the reader did not ask for its key. */
  lemma SkippedTail(p: seq<Sample>, s: Sample, q: Query, r: seq<Sample>, k: Key)
    requires q.key.Some? && q.key.value != s.key && IsSuffix(Project(r, k), Project(p, k))
    requires q.key.Some? && q.key.value != k ==> Project(r, k) == []
    ensures IsSuffix(Project(r, k), Project(p + [s], k))
  {
    ProjectSnoc(p, s, k);
  }

  /** Of one key the scan takes the newest samples that pass the filter, and none that does not. */
  lemma {:induction false} ScanIsTail(h: seq<Sample>, q: Query, taken: nat, k: Key)
    ensures IsSuffix(Project(Scan(h, q, taken), k), Project(Passing(h, q.filter), k))
    ensures q.key.Some? && q.key.value != k ==> Project(Scan(h, q, taken), k) == []
  {
    if h == [] || q.Stale(Last(h)) || Last(h).id <= q.lastId {
      assert Scan(h, q, taken) == [];
    } else if !AskedFor(q, Last(h)) {
      ScanIsTail(Front(h), q, taken, k);
      assert Scan(h, q, taken) == Scan(Front(h), q, taken);
      if q.filter(Last(h)) {
        SkippedTail(Passing(Front(h), q.filter), Last(h), q, Scan(h, q, taken), k);
      } else {
        assert Passing(h, q.filter) == Passing(Front(h), q.filter);
      }
    } else {
      var older := if GoesOn(h, q, taken) then Scan(Front(h), q, taken + 1) else [];
      if GoesOn(h, q, taken) {
        ScanIsTail(Front(h), q, taken + 1, k);
      }
      assert Scan(h, q, taken) == older + [Last(h)];
      TailSnoc(older, Passing(Front(h), q.filter), Last(h), k);
      ProjectSnoc(older, Last(h), k);
    }
  }

  lemma {:induction false} SelectConcat(a: seq<Sample>, b: seq<Sample>, q: Query)
    ensures Select(a + b, q) == Select(a, q) + Select(b, q)
  {
    if b == [] {
      assert a + b == a;
    } else {
      assert Front(a + b) == a + Front(b);
      SelectConcat(a, Front(b), q);
    }
  }

  lemma {:induction false} SelectMembers(h: seq<Sample>, q: Query, s: Sample)
    ensures s in Select(h, q) <==> s in h && q.Matches(s)
  {
    if h != [] {
      assert h == Front(h) + [Last(h)];
      SelectMembers(Front(h), q, s);
    }
  }

  /** A matching sample of key `k` with nothing after it that would stop the scan before it. */
  ghost predicate InReach(h: seq<Sample>, q: Query, k: Key, i: nat) {
    i < |h| && h[i].key == k && AskedFor(q, h[i]) && Scannable(h, q, 0, i)
  }

  /** Anything after the start of the scan is in reach. */
  lemma LaterIsScannable(h: seq<Sample>, q: Query, start: nat, i: nat)
    requires start <= i <= |h| && Scannable(h, q, 0, start)
    ensures Scannable(h, q, 0, i)
  {
    assert h[start..] == h[start..i] + h[i..];
    SelectConcat(h[start..i], h[i..], q);
    var all, r := Select(h[start..], q), Select(h[i..], q);
    var n := |all| - |r|;
    forall m | 0 < m < |r| ensures !q.config.Clears(r[m].event) {
      assert r[m] == all[n + m];
    }
  }

  lemma EarlierSelectsMore(h: seq<Sample>, q: Query, i: nat, start: nat)
    requires i < start <= |h| && q.Matches(h[i])
    ensures |Select(h[i..], q)| > |Select(h[start..], q)|
    ensures IsSuffix(Select(h[start..], q), Select(h[i..], q))
  {
    assert h[i..] == [h[i]] + h[i + 1..start] + h[start..];
    SelectConcat([h[i]] + h[i + 1..start], h[start..], q);
    SelectConcat([h[i]], h[i + 1..start], q);
    assert Front([h[i]]) == [];
  }

  /** A matching sample in reach is not before the start of the scan. */
  lemma InReachIsScanned(h: seq<Sample>, q: Query, k: Key, start: nat, i: nat)
    requires start <= |h| && Maximal(h, q, 0, start) && InReach(h, q, k, i)
    ensures i >= start
  {
    if i < start {
      EarlierSelectsMore(h, q, i, start);
    }
  }

  lemma ScannedKeyInReach(h: seq<Sample>, q: Query, k: Key, start: nat) returns (i: nat)
    requires Scannable(h, q, 0, start) && k in KeySet(Select(h[start..], q))
    ensures InReach(h, q, k, i)
  {
    var r := Select(h[start..], q);
    var m :| 0 <= m < |r| && r[m].key == k;
    SelectMembers(h[start..], q, r[m]);
    var n :| 0 <= n < |h[start..]| && h[start..][n] == r[m];
    i := start + n;
    LaterIsScannable(h, q, start, i);
  }

  lemma KeyInReachIsScanned(h: seq<Sample>, q: Query, k: Key, start: nat, i: nat)
    requires start <= |h| && Maximal(h, q, 0, start) && InReach(h, q, k, i)
    ensures k in KeySet(Select(h[start..], q))
  {
    InReachIsScanned(h, q, k, start, i);
    SelectMembers(h[start..], q, h[i]);
    assert h[start..][i - start] == h[i];
    var r := Select(h[start..], q);
    var m :| 0 <= m < |r| && r[m] == h[i];
    assert r[m].key in KeySet(r);
  }

  ghost predicate KeyInReach(h: seq<Sample>, q: Query, k: Key) {
    q.config.sampleCount != Some(0) && exists i: nat :: InReach(h, q, k, i)
  }

  /** A key is scanned exactly when the reader keeps a history and one of the key's samples is in reach: a condition on
      the history, not on the loop. */
  lemma ScannedIffInReach(h: seq<Sample>, q: Query, k: Key)
    ensures k in KeySet(Scanned(h, q)) <==> KeyInReach(h, q, k)
  {
    if !q.config.KeepsNoHistory() {
      var start := ScanSpec(h, q, 0);
      if k in KeySet(Scanned(h, q)) {
        var _ := ScannedKeyInReach(h, q, k, start);
      }
      if i: nat :| InReach(h, q, k, i) {
        KeyInReachIsScanned(h, q, k, start, i);
      }
    }
  }

  lemma {:induction false} ScanInHistory(h: seq<Sample>, q: Query, taken: nat, s: Sample)
    requires s in Scan(h, q, taken)
    ensures s in h
  {
    if h != [] {
      assert h == Front(h) + [Last(h)];
      if s != Last(h) {
        ScanInHistory(Front(h), q, if q.Matches(Last(h)) then taken + 1 else taken, s);
      }
    }
  }

  lemma {:induction false} ScanIds(h: seq<Sample>, q: Query, taken: nat)
    requires IdsIncrease(h)
    ensures IdsIncrease(Scan(h, q, taken))
  {
    if h != [] {
      ScanIds(Front(h), q, if q.Matches(Last(h)) then taken + 1 else taken);
      var r := Scan(Front(h), q, if q.Matches(Last(h)) then taken + 1 else taken);
      forall i | 0 <= i < |r| ensures r[i].id < Last(h).id {
        ScanInHistory(Front(h), q, if q.Matches(Last(h)) then taken + 1 else taken, r[i]);
      }
    }
  }

  /** The scan of a history drawn from the log is drawn from the log. */
  lemma ScannedDrawn(l: seq<Sample>, h: seq<Sample>, q: Query)
    requires Drawn(h, l)
    ensures Drawn(Scanned(h, q), l)
  {
    if !q.config.KeepsNoHistory() {
      ScanIds(h, q, 0);
      var r := Scan(h, q, 0);
      forall i | 0 <= i < |r| ensures r[i] in l {
        ScanInHistory(h, q, 0, r[i]);
      }
    }
  }

  lemma KeepSnoc(l: seq<Sample>, s: Sample, chosen: set<Sample>)
    ensures Keep(l + [s], chosen) == Keep(l, chosen) + (if s in chosen then [s] else [])
  {
    assert Front(l + [s]) == l;
  }

  lemma {:induction false} ProjectKeep(l: seq<Sample>, chosen: set<Sample>, k: Key)
    ensures Project(Keep(l, chosen), k) == Keep(Project(l, k), chosen)
  {
    if l != [] {
      ProjectKeep(Front(l), chosen, k);
      ProjectSnoc(Keep(Front(l), chosen), Last(l), k);
      if Last(l).key == k {
        KeepSnoc(Project(Front(l), k), Last(l), chosen);
      }
      assert Keep(l, chosen) ==
        if Last(l) in chosen then Keep(Front(l), chosen) + [Last(l)] else Keep(Front(l), chosen);
      assert Project(l, k) == if Last(l).key == k then Project(Front(l), k) + [Last(l)] else Project(Front(l), k);
    }
  }

  lemma {:induction false} KeepAll(p: seq<Sample>, chosen: set<Sample>)
    requires forall i :: 0 <= i < |p| ==> p[i] in chosen
    ensures Keep(p, chosen) == p
  {
    if p != [] {
      var f, s := Front(p), Last(p);
      assert p == f + [s] && s in chosen;
      KeepAll(f, chosen);
      KeepSnoc(f, s, chosen);
    }
  }

  lemma {:induction false} KeepNone(p: seq<Sample>, chosen: set<Sample>)
    requires forall i :: 0 <= i < |p| ==> p[i] !in chosen
    ensures Keep(p, chosen) == []
  {
    if p != [] {
      var f, s := Front(p), Last(p);
      assert p == f + [s] && s !in chosen;
      KeepNone(f, chosen);
      KeepSnoc(f, s, chosen);
    }
  }

  lemma {:induction false} KeepConcat(a: seq<Sample>, b: seq<Sample>, chosen: set<Sample>)
    ensures Keep(a + b, chosen) == Keep(a, chosen) + Keep(b, chosen)
  {
    if b == [] {
      assert a + b == a;
    } else {
      KeepConcat(a, Front(b), chosen);
      assert a + b == a + Front(b) + [Last(b)];
      KeepSnoc(a + Front(b), Last(b), chosen);
    }
  }

  lemma KeepTail(p: seq<Sample>, chosen: set<Sample>, start: nat)
    requires start <= |p|
    requires forall i :: 0 <= i < |p| ==> (p[i] in chosen <==> i >= start)
    ensures Keep(p, chosen) == p[start..]
  {
    var older, tail := p[..start], p[start..];
    assert p == older + tail;
    KeepConcat(older, tail, chosen);
    KeepNone(older, chosen);
    KeepAll(tail, chosen);
  }

  /** The newest published sample of a key, when the batch must carry it. */
  ghost predicate Needs(l: seq<Sample>, q: Query, k: Key) {
    q.WantsKey(k) && k in Current(l) && Current(l)[k].id > q.lastId
  }

  /** The key's current sample is one the reader asked for, accepts and has not received. */
  ghost predicate NeedsBase(l: seq<Sample>, q: Query, k: Key) {
    && (q.key.None? || q.key.value == k)
    && k in Current(l) && Current(l)[k].id > q.lastId && q.filter(Current(l)[k])
  }

  lemma NotChosen(scanned: seq<Sample>, s: Sample)
    requires s.key !in KeySet(scanned)
    ensures s !in scanned
  {
    forall i | 0 <= i < |scanned| ensures scanned[i] != s {
      assert scanned[i].key in KeySet(scanned);
    }
  }

  lemma {:induction false} KeepMembers(l: seq<Sample>, chosen: set<Sample>, s: Sample)
    ensures s in Keep(l, chosen) <==> s in l && s in chosen
  {
    if l != [] {
      assert l == Front(l) + [Last(l)];
      KeepMembers(Front(l), chosen, s);
    }
  }

  lemma {:induction false} KeepIds(l: seq<Sample>, chosen: set<Sample>)
    requires IdsIncrease(l)
    ensures IdsIncrease(Keep(l, chosen))
  {
    if l != [] {
      KeepIds(Front(l), chosen);
      var p := Keep(Front(l), chosen);
      forall i | 0 <= i < |p| ensures p[i].id < Last(l).id {
        KeepMembers(Front(l), chosen, p[i]);
      }
    }
  }

  /** A scanned key contributes exactly its scanned samples. */
  lemma SourcesOfScannedKey(l: seq<Sample>, scanned: seq<Sample>, q: Query, k: Key)
    requires IdsIncrease(l) && Drawn(scanned, l) && k in KeySet(scanned)
    ensures Project(Sources(l, scanned, q), k) == Project(scanned, k)
  {
    var chosen := (set s | s in scanned) + Bases(Current(l), q, KeySet(scanned));
    KeepIds(l, chosen);
    ProjectIds(Sources(l, scanned, q), k);
    ProjectIds(scanned, k);
    forall s ensures s in Project(Sources(l, scanned, q), k) <==> s in Project(scanned, k) {
      ProjectMembers(Sources(l, scanned, q), k, s);
      ProjectMembers(scanned, k, s);
      KeepMembers(l, chosen, s);
    }
    SortedIsUnique(Project(Sources(l, scanned, q), k), Project(scanned, k));
  }

  lemma {:induction false} CurrentKeys(l: seq<Sample>)
    ensures forall j :: j in Current(l) ==> Current(l)[j].key == j
  {
    if l != [] {
      CurrentKeys(Front(l));
    }
  }

  /** Any other key contributes its current sample, when it has one the reader has not received and accepts. */
  lemma SourcesOfOtherKey(c: Codec, l: seq<Sample>, scanned: seq<Sample>, q: Query, k: Key)
    requires WellFormed(c, l)
    requires k !in KeySet(scanned)
    ensures Project(Sources(l, scanned, q), k) == if NeedsBase(l, q, k) then [Current(l)[k]] else []
  {
    var chosen := (set s | s in scanned) + Bases(Current(l), q, KeySet(scanned));
    var p := Project(l, k);
    ProjectKeep(l, chosen, k);
    ProjectIds(l, k);
    CurrentIsNewest(l, k);
    assert KeyWellFormed(c, l, k);
    var start := if NeedsBase(l, q, k) then |p| - 1 else |p|;
    forall i | 0 <= i < |p| ensures p[i] in chosen <==> i >= start {
      ProjectMembers(l, k, p[i]);
      NotChosen(scanned, p[i]);
      CurrentKeys(l);
    }
    KeepTail(p, chosen, start);
  }

  // ----- the cap -----

  lemma KeySetSnoc(l: seq<Sample>, s: Sample)
    ensures KeySet(l + [s]) == KeySet(l) + {s.key}
  {
    var r := l + [s];
    forall k | k in KeySet(l) + {s.key} ensures k in KeySet(r) {
      if k in KeySet(l) {
        var i :| 0 <= i < |l| && l[i].key == k;
        assert r[i].key == k;
      } else {
        assert r[|l|].key == k;
      }
    }
  }

  lemma KeySetFront(l: seq<Sample>)
    requires l != []
    ensures KeySet(l) == KeySet(Front(l)) + {Last(l).key}
  {
    assert l == Front(l) + [Last(l)];
    KeySetSnoc(Front(l), Last(l));
  }

  lemma {:induction false} SpentBudgetDropsKey(src: seq<Sample>, seen: set<Key>, k: Key)
    requires k in seen
    ensures Project(CapFrom(src, seen, 0), k) == []
  {
    if src == [] {
    } else if Last(src).key !in seen {
      SpentBudgetDropsKey(Front(src), seen + {Last(src).key}, k);
      ProjectSnoc(CapFrom(Front(src), seen + {Last(src).key}, 0), Last(src), k);
    } else {
      SpentBudgetDropsKey(Front(src), seen, k);
    }
  }

  lemma {:induction false} CapFromIsTail(src: seq<Sample>, seen: set<Key>, budget: nat, k: Key)
    ensures IsSuffix(Project(CapFrom(src, seen, budget), k), Project(src, k))
  {
    if src != [] {
      var s := Last(src);
      assert src == Front(src) + [s];
      ProjectSnoc(Front(src), s, k);
      if s.key in seen && budget == 0 {
        if s.key == k {
          SpentBudgetDropsKey(src, seen, k);
        } else {
          CapFromIsTail(Front(src), seen, 0, k);
        }
      } else {
        var seen' := if s.key in seen then seen else seen + {s.key};
        var budget' := if s.key in seen then budget - 1 else budget;
        CapFromIsTail(Front(src), seen', budget', k);
        TailSnoc(CapFrom(Front(src), seen', budget'), Front(src), s, k);
      }
    }
  }

  lemma {:induction false} CapFromKeepsKey(src: seq<Sample>, seen: set<Key>, budget: nat, k: Key)
    requires Project(src, k) != [] && k !in seen
    ensures Project(CapFrom(src, seen, budget), k) != []
  {
    var s := Last(src);
    if s.key !in seen {
      var rest := CapFrom(Front(src), seen + {s.key}, budget);
      assert CapFrom(src, seen, budget) == rest + [s];
      ProjectSnoc(rest, s, k);
      if s.key != k {
        CapFromKeepsKey(Front(src), seen + {s.key}, budget, k);
      }
    } else {
      assert s.key != k;
      var budget' := if budget > 0 then budget - 1 else 0;
      var rest := CapFrom(Front(src), seen, budget');
      CapFromKeepsKey(Front(src), seen, budget', k);
      assert CapFrom(src, seen, budget) == if budget > 0 then rest + [s] else rest;
      ProjectSnoc(rest, s, k);
    }
  }

  lemma NewKeyCount(keys: set<Key>, seen: set<Key>, k: Key)
    requires k !in seen
    ensures |(keys + {k}) - seen| == |keys - (seen + {k})| + 1
  {
    assert (keys + {k}) - seen == (keys - (seen + {k})) + {k};
  }

  lemma {:induction false} CapFromSize(src: seq<Sample>, seen: set<Key>, budget: nat)
    ensures |KeySet(src) - seen| <= |src|
    ensures |CapFrom(src, seen, budget)| ==
      var distinct := |KeySet(src) - seen|;
      distinct + if budget < |src| - distinct then budget else |src| - distinct
  {
    if src != [] {
      KeySetFront(src);
      var k := Last(src).key;
      if k !in seen {
        CapFromSize(Front(src), seen + {k}, budget);
        NewKeyCount(KeySet(Front(src)), seen, k);
      } else {
        CapFromSize(Front(src), seen, if budget > 0 then budget - 1 else 0);
        assert KeySet(Front(src)) + {k} - seen == KeySet(Front(src)) - seen;
      }
    }
  }

  /** The cap leaves a batch within the reader's count alone. A larger one shrinks to the count, or to one sample per
      key when there are more keys than that. */
  lemma CapSize(config: Config, src: seq<Sample>)
    requires config.Bounded()
    ensures |Cap(config, src)| ==
      if |src| <= config.sampleCount.value then |src| else Max(config.sampleCount.value, |KeySet(src)|)
  {
    assert KeySet(src) - {} == KeySet(src);
    CapFromSize(src, {}, Budget(config.sampleCount.value, src));
  }

  lemma CapIsTail(config: Config, src: seq<Sample>, k: Key)
    ensures IsSuffix(Project(Cap(config, src), k), Project(src, k))
    ensures Project(src, k) != [] ==> Project(Cap(config, src), k) != []
  {
    if config.Bounded() {
      var budget := Budget(config.sampleCount.value, src);
      CapFromIsTail(src, {}, budget, k);
      if Project(src, k) != [] {
        CapFromKeepsKey(src, {}, budget, k);
      }
    }
  }

  lemma {:induction false} CapFromMembers(src: seq<Sample>, seen: set<Key>, budget: nat, s: Sample)
    requires s in CapFrom(src, seen, budget)
    ensures s in src
  {
    if src == [] {
    } else {
      assert src == Front(src) + [Last(src)];
      if s == Last(src) {
      } else if Last(src).key !in seen {
        CapFromMembers(Front(src), seen + {Last(src).key}, budget, s);
      } else {
        CapFromMembers(Front(src), seen, if budget > 0 then budget - 1 else 0, s);
      }
    }
  }

  lemma {:induction false} SpentBudgetKeepsNewest(src: seq<Sample>, seen: set<Key>, i: nat)
    requires IdsIncrease(src) && i < |src|
    requires src[i] in CapFrom(src, seen, 0)
    ensures src[i].key !in seen
    ensures forall m :: i < m < |src| ==> src[m].key != src[i].key
  {
    if i < |src| - 1 {
      assert Front(src)[i] == src[i] && src[i] != Last(src);
      if Last(src).key !in seen {
        SpentBudgetKeepsNewest(Front(src), seen + {Last(src).key}, i);
      } else {
        SpentBudgetKeepsNewest(Front(src), seen, i);
      }
    } else if Last(src).key in seen {
      CapFromMembers(Front(src), seen, 0, src[i]);
    }
  }

  /** The budget goes to the newest samples: a kept sample that is not its key's newest has every newer one kept. */
  lemma {:induction false} CapFromPrefersNewer(src: seq<Sample>, seen: set<Key>, budget: nat, i: nat, j: nat)
    requires IdsIncrease(src) && i < j < |src|
    requires src[i] in CapFrom(src, seen, budget)
    requires src[i].key in seen || exists m :: i < m < |src| && src[m].key == src[i].key
    ensures src[j] in CapFrom(src, seen, budget)
  {
    var s := Last(src);
    assert forall m :: 0 <= m < |src| - 1 ==> Front(src)[m] == src[m];
    if s.key !in seen {
      if j < |src| - 1 {
        CapFromPrefersNewer(Front(src), seen + {s.key}, budget, i, j);
      }
    } else if budget > 0 {
      if j < |src| - 1 {
        CapFromPrefersNewer(Front(src), seen, budget - 1, i, j);
      }
    } else {
      SpentBudgetKeepsNewest(src, seen, i);
    }
  }
  // ----- order and membership -----

  lemma {:induction false} CapFromIds(src: seq<Sample>, seen: set<Key>, budget: nat)
    requires IdsIncrease(src)
    ensures IdsIncrease(CapFrom(src, seen, budget))
  {
    if src != [] {
      var seen', budget' :=
        if Last(src).key !in seen then seen + {Last(src).key} else seen,
        if Last(src).key !in seen then budget else if budget > 0 then budget - 1 else 0;
      CapFromIds(Front(src), seen', budget');
      var p := CapFrom(Front(src), seen', budget');
      forall i | 0 <= i < |p| ensures p[i].id < Last(src).id {
        CapFromMembers(Front(src), seen', budget', p[i]);
      }
    }
  }

  // ----- the batch -----

  /** What the batch holds for one key, whatever the sample filter: a scanned key has the newest of its samples in the
      history that pass, any other key its current sample if that passes and the reader still needs it, and a key the
      reader did not ask for nothing. */
  lemma FilteredOfKey(c: Codec, l: seq<Sample>, h: seq<Sample>, q: Query, k: Key)
    requires WellFormed(c, l) && Drawn(h, l)
    ensures k in KeySet(Scanned(h, q)) ==>
      && (q.key.None? || q.key.value == k)
      && Project(Chosen(l, h, q), k) != []
      && IsSuffix(Project(Chosen(l, h, q), k), Project(Passing(h, q.filter), k))
    ensures k !in KeySet(Scanned(h, q)) ==>
      Project(Chosen(l, h, q), k) == if NeedsBase(l, q, k) then [Current(l)[k]] else []
  {
    var scanned := Scanned(h, q);
    var src := Sources(l, scanned, q);
    ProjectEmptyIffNoKey(scanned, k);
    CapIsTail(q.config, src, k);
    if k in KeySet(scanned) {
      ScannedDrawn(l, h, q);
      SourcesOfScannedKey(l, scanned, q, k);
      ScanIsTail(h, q, 0, k);
      SuffixTransitive(Project(Chosen(l, h, q), k), Project(src, k), Project(Passing(h, q.filter), k));
    } else {
      SourcesOfOtherKey(c, l, scanned, q, k);
    }
  }

  ghost predicate AllAskedFor(src: seq<Sample>, q: Query) {
    forall i :: 0 <= i < |src| ==> AskedFor(q, src[i])
  }

  /** Every sample of the batch passes the filter and is of a key the reader asked for, whatever the query. */
  lemma ChosenPasses(c: Codec, l: seq<Sample>, h: seq<Sample>, q: Query, s: Sample)
    requires WellFormed(c, l) && Drawn(h, l) && s in Chosen(l, h, q)
    ensures AskedFor(q, s)
  {
    var p := Project(Chosen(l, h, q), s.key);
    FilteredOfKey(c, l, h, q, s.key);
    ProjectMembers(Chosen(l, h, q), s.key, s);
    if s.key in KeySet(Scanned(h, q)) {
      var i :| 0 <= i < |p| && p[i] == s;
      var all := Project(Passing(h, q.filter), s.key);
      assert all[|all| - |p| + i] == s;
      ProjectMembers(Passing(h, q.filter), s.key, s);
      PassingMembers(h, q.filter, s);
    }
  }

  /** A key whose current sample the reader asked for, accepts and has not received is represented in the batch. */
  lemma ChosenRepresents(c: Codec, l: seq<Sample>, h: seq<Sample>, q: Query, k: Key)
    requires WellFormed(c, l) && Drawn(h, l) && NeedsBase(l, q, k)
    ensures k in KeySet(Chosen(l, h, q))
  {
    FilteredOfKey(c, l, h, q, k);
    ProjectEmptyIffNoKey(Chosen(l, h, q), k);
  }

  /** Without a sample filter: a scanned key has the newest of its samples in the history, any other key its current
      sample if the reader still needs it, and a key the reader did not ask for nothing. */
  lemma ChosenOfKey(c: Codec, l: seq<Sample>, h: seq<Sample>, q: Query, k: Key)
    requires WellFormed(c, l) && Drawn(h, l) && q.Unfiltered()
    ensures k in KeySet(Scanned(h, q)) ==>
      q.WantsKey(k) && Project(Chosen(l, h, q), k) != [] && IsSuffix(Project(Chosen(l, h, q), k), Project(h, k))
    ensures k !in KeySet(Scanned(h, q)) ==>
      Project(Chosen(l, h, q), k) == if Needs(l, q, k) then [Current(l)[k]] else []
  {
    FilteredOfKey(c, l, h, q, k);
    PassingAll(h, q.filter);
  }

  /** Every key's samples in the batch are the newest ones published for it, with none skipped in between, as long as
      the history skips none. A key the reader still needs is represented, and a key it did not ask for is not. */
  lemma ChosenIsTail(c: Codec, l: seq<Sample>, h: seq<Sample>, q: Query, k: Key)
    requires WellFormed(c, l) && Drawn(h, l) && q.Unfiltered()
    requires IsSuffix(Project(h, k), Project(l, k))
    ensures IsSuffix(Project(Chosen(l, h, q), k), Project(l, k))
    ensures Needs(l, q, k) ==> Project(Chosen(l, h, q), k) != []
    ensures !q.WantsKey(k) ==> Project(Chosen(l, h, q), k) == []
  {
    ChosenOfKey(c, l, h, q, k);
    if k in KeySet(Scanned(h, q)) {
      SuffixTransitive(Project(Chosen(l, h, q), k), Project(h, k), Project(l, k));
    } else if Needs(l, q, k) {
      CurrentIsNewest(l, k);
      var p := Project(l, k);
      assert p[|p| - 1..] == [Last(p)];
    }
  }

  lemma ChosenInLog(l: seq<Sample>, h: seq<Sample>, q: Query, s: Sample)
    requires s in Chosen(l, h, q)
    ensures s in l
  {
    var src := Sources(l, Scanned(h, q), q);
    var chosen := (set s | s in Scanned(h, q)) + Bases(Current(l), q, KeySet(Scanned(h, q)));
    if s !in src && q.config.Bounded() {
      CapFromMembers(src, {}, Budget(q.config.sampleCount.value, src), s);
    }
    KeepMembers(l, chosen, s);
  }

  /** The batch is in id order without duplicates, keeps the newest source of every key, and has the size the cap
      promises. */
  lemma ChosenIsCapped(l: seq<Sample>, h: seq<Sample>, q: Query)
    requires IdsIncrease(l)
    ensures IdsIncrease(Chosen(l, h, q))
    ensures forall s :: s in Chosen(l, h, q) ==> s in Sources(l, Scanned(h, q), q)
    ensures forall k :: Project(Sources(l, Scanned(h, q), q), k) != [] ==>
      Project(Chosen(l, h, q), k) != [] &&
      Last(Project(Chosen(l, h, q), k)) == Last(Project(Sources(l, Scanned(h, q), q), k))
    ensures q.config.Bounded() ==> var src := Sources(l, Scanned(h, q), q);
      |Chosen(l, h, q)| ==
        if |src| <= q.config.sampleCount.value then |src| else Max(q.config.sampleCount.value, |KeySet(src)|)
  {
    var scanned := Scanned(h, q);
    var chosen := (set s | s in scanned) + Bases(Current(l), q, KeySet(scanned));
    var src := Sources(l, scanned, q);
    KeepIds(l, chosen);
    if q.config.Bounded() {
      CapSize(q.config, src);
      var budget := Budget(q.config.sampleCount.value, src);
      CapFromIds(src, {}, budget);
      forall s | s in CapFrom(src, {}, budget) ensures s in src {
        CapFromMembers(src, {}, budget, s);
      }
    }
    forall k | Project(src, k) != []
      ensures Project(Chosen(l, h, q), k) != [] && Last(Project(Chosen(l, h, q), k)) == Last(Project(src, k))
    {
      CapIsTail(q.config, src, k);
    }
  }
}
