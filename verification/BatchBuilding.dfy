/** The loops of getSamples that order, cap and serialise the batch. */
module BatchBuilding {
  import opened Samples
  import opened PublishLog
  import opened InitBatch

  // ----- ordering -----

  function Insert(s: Sample, l: seq<Sample>): (r: seq<Sample>)
    ensures multiset(r) == multiset(l) + multiset{s}
  {
    if l == [] || s.id <= l[0].id then [s] + l
    else
      assert l == [l[0]] + l[1..];
      [l[0]] + Insert(s, l[1..])
  }

  /** std::sort by id. */
  function SortById(l: seq<Sample>): (r: seq<Sample>)
    ensures multiset(r) == multiset(l)
  {
    if l == [] then []
    else
      assert l == [l[0]] + l[1..];
      Insert(l[0], SortById(l[1..]))
  }

  ghost predicate DistinctIds(l: seq<Sample>) {
    forall i, j :: 0 <= i < j < |l| ==> l[i].id != l[j].id
  }

  lemma {:induction false} InsertSorts(s: Sample, l: seq<Sample>)
    requires IdsIncrease(l) && forall i :: 0 <= i < |l| ==> l[i].id != s.id
    ensures IdsIncrease(Insert(s, l))
  {
    if l != [] && s.id > l[0].id {
      InsertSorts(s, l[1..]);
      var r := Insert(s, l[1..]);
      forall i | 0 <= i < |r| ensures l[0].id < r[i].id {
        assert r[i] in multiset(r);
        assert r[i] == s || r[i] in multiset(l[1..]);
      }
    }
  }

  lemma {:induction false} SortByIdSorts(l: seq<Sample>)
    requires DistinctIds(l)
    ensures IdsIncrease(SortById(l))
  {
    if l != [] {
      SortByIdSorts(l[1..]);
      var r := SortById(l[1..]);
      forall i | 0 <= i < |r| ensures r[i].id != l[0].id {
        assert r[i] in multiset(r) && r[i] in multiset(l[1..]);
      }
      InsertSorts(l[0], r);
    }
  }

  /** Sorting the chosen samples restores their order in the log. */
  lemma SortRestoresLogOrder(l: seq<Sample>, sources: seq<Sample>, chosen: set<Sample>)
    requires IdsIncrease(l) && DistinctIds(sources)
    requires forall s :: s in sources <==> s in l && s in chosen
    ensures SortById(sources) == Keep(l, chosen)
  {
    SortByIdSorts(sources);
    KeepIds(l, chosen);
    forall s ensures s in SortById(sources) <==> s in Keep(l, chosen) {
      KeepMembers(l, chosen, s);
      assert s in SortById(sources) <==> s in multiset(SortById(sources));
      assert s in sources <==> s in multiset(sources);
    }
    SortedIsUnique(SortById(sources), Keep(l, chosen));
  }

  // ----- capping -----

  predicate IsNewest(src: seq<Sample>, i: nat)
    requires i < |src|
  {
    src[i].key !in KeySet(src[i + 1..])
  }

  /** How many samples from index `i` on are not the newest of their key. */
  function Older(src: seq<Sample>, i: nat): nat
    requires i <= |src|
    decreases |src| - i
  {
    if i == |src| then 0 else Older(src, i + 1) + if IsNewest(src, i) then 0 else 1
  }

  function Marked(src: seq<Sample>, keep: seq<bool>): seq<Sample>
    requires |src| == |keep|
  {
    if src == [] then [] else Marked(Front(src), Front(keep)) + if Last(keep) then [Last(src)] else []
  }

  ghost predicate MarkOk(src: seq<Sample>, kept: bool, budget: nat, i: nat)
    requires i < |src|
  {
    kept <==> IsNewest(src, i) || Older(src, i + 1) < budget
  }

  ghost predicate MarksMatch(src: seq<Sample>, keep: seq<bool>, budget: nat) {
    |src| == |keep| && forall i :: 0 <= i < |src| ==> MarkOk(src, keep[i], budget, i)
  }

  lemma KeySetTail(src: seq<Sample>, i: nat)
    requires i < |src|
    ensures KeySet(src[i..]) == KeySet(src[i + 1..]) + {src[i].key}
  {
    var t := src[i..];
    assert t[0] == src[i];
    forall k | k in KeySet(src[i + 1..]) ensures k in KeySet(t) {
      var j :| 0 <= j < |src[i + 1..]| && src[i + 1..][j].key == k;
      assert t[j + 1].key == k;
    }
    forall k | k in KeySet(t) ensures k in KeySet(src[i + 1..]) + {src[i].key} {
      var j :| 0 <= j < |t| && t[j].key == k;
      if j > 0 {
        assert src[i + 1..][j - 1].key == k;
      }
    }
  }

  lemma CapFromSnoc(front: seq<Sample>, s: Sample, seen: set<Key>, budget: nat)
    ensures CapFrom(front + [s], seen, budget) ==
      if s.key !in seen then CapFrom(front, seen + {s.key}, budget) + [s]
      else if budget > 0 then CapFrom(front, seen, budget - 1) + [s]
      else CapFrom(front, seen, 0)
  {
    assert Front(front + [s]) == front;
  }

  lemma MarkedSnoc(front: seq<Sample>, s: Sample, keep: seq<bool>, b: bool)
    requires |front| == |keep|
    ensures Marked(front + [s], keep + [b]) == Marked(front, keep) + if b then [s] else []
  {
    assert Front(front + [s]) == front && Front(keep + [b]) == keep;
  }

  function Left(src: seq<Sample>, budget: nat, n: nat): nat
    requires n <= |src|
  {
    if Older(src, n) < budget then budget - Older(src, n) else 0
  }

  lemma MarkStep(src: seq<Sample>, kept: bool, budget: nat, m: nat, older: seq<Sample>)
    requires m < |src| && MarkOk(src, kept, budget, m)
    requires older == CapFrom(src[..m], KeySet(src[m..]), Left(src, budget, m))
    ensures (older + if kept then [src[m]] else []) ==
      CapFrom(src[..m + 1], KeySet(src[m + 1..]), Left(src, budget, m + 1))
  {
    assert src[..m + 1] == src[..m] + [src[m]];
    CapFromSnoc(src[..m], src[m], KeySet(src[m + 1..]), Left(src, budget, m + 1));
    KeySetTail(src, m);
    assert Older(src, m) == Older(src, m + 1) + if IsNewest(src, m) then 0 else 1;
    if IsNewest(src, m) {
      assert KeySet(src[m + 1..]) + {src[m].key} == KeySet(src[m..]);
    } else {
      assert KeySet(src[m..]) == KeySet(src[m + 1..]);
    }
  }

  lemma MarkedPrefix(src: seq<Sample>, keep: seq<bool>, m: nat)
    requires m < |src| == |keep|
    ensures Marked(src[..m + 1], keep[..m + 1]) == Marked(src[..m], keep[..m]) + if keep[m] then [src[m]] else []
  {
    assert src[..m + 1] == src[..m] + [src[m]] && keep[..m + 1] == keep[..m] + [keep[m]];
    MarkedSnoc(src[..m], src[m], keep[..m], keep[m]);
  }

  /** The marks of the two passes select what the one-pass definition selects. */
  lemma {:induction false} MarksSelectCap(src: seq<Sample>, keep: seq<bool>, budget: nat, n: nat)
    requires MarksMatch(src, keep, budget) && n <= |src|
    ensures Marked(src[..n], keep[..n]) == CapFrom(src[..n], KeySet(src[n..]), Left(src, budget, n))
  {
    if n > 0 {
      var m := n - 1;
      MarksSelectCap(src, keep, budget, m);
      assert MarkOk(src, keep[m], budget, m);
      MarkedPrefix(src, keep, m);
      MarkStep(src, keep[m], budget, m, Marked(src[..m], keep[..m]));
    }
  }

  /** Marks one sample per key, the newest, whatever the count. */
  method ReserveNewest(sources: seq<Sample>, keep: array<bool>) returns (kept: nat)
    requires keep.Length == |sources| && forall i :: 0 <= i < |sources| ==> !keep[i]
    modifies keep
    ensures forall i :: 0 <= i < |sources| ==> (keep[i] <==> IsNewest(sources, i))
    ensures kept == |KeySet(sources)| && kept == |sources| - Older(sources, 0)
  {
    kept := 0;
    var keptKeys: set<Key> := {};
    var i := |sources|;
    while i > 0
      invariant 0 <= i <= |sources|
      invariant keptKeys == KeySet(sources[i..]) && kept == |keptKeys| && kept == |sources| - i - Older(sources, i)
      invariant forall j :: 0 <= j < i ==> !keep[j]
      invariant forall j :: i <= j < |sources| ==> (keep[j] <==> IsNewest(sources, j))
    {
      i := i - 1;
      KeySetTail(sources, i);
      assert IsNewest(sources, i) <==> sources[i].key !in keptKeys;
      if sources[i].key !in keptKeys {
        keptKeys := keptKeys + {sources[i].key};
        keep[i] := true;
        kept := kept + 1;
      }
    }
    assert sources[0..] == sources;
  }

  lemma {:induction false} OlderShrinks(src: seq<Sample>, i: nat, j: nat)
    requires i <= j <= |src|
    ensures Older(src, i) >= Older(src, j)
    decreases j - i
  {
    if i < j {
      OlderShrinks(src, i + 1, j);
    }
  }

  /** Where the second pass stops, either the count is reached or there is nothing left to mark. */
  lemma BudgetSpent(src: seq<Sample>, keep: seq<bool>, i: nat, reserved: nat, maxCount: nat)
    requires |keep| == |src| && i <= |src| && (i == 0 || reserved + Older(src, i) >= maxCount)
    requires forall j :: 0 <= j < i ==> (keep[j] <==> IsNewest(src, j))
    requires forall j :: i <= j < |src| ==>
      keep[j] && (IsNewest(src, j) || Older(src, j + 1) < maxCount - reserved)
    ensures MarksMatch(src, keep, if maxCount > reserved then maxCount - reserved else 0)
  {
    forall j | 0 <= j < |src|
      ensures MarkOk(src, keep[j], if maxCount > reserved then maxCount - reserved else 0, j)
    {
      if j < i {
        OlderShrinks(src, j + 1, i);
      }
    }
  }

  /** Marks more samples, the newest ones, until the count is reached. */
  method FillBudget(sources: seq<Sample>, keep: array<bool>, reserved: nat, maxCount: nat) returns (kept: nat)
    requires keep.Length == |sources| && maxCount < |sources|
    requires forall i :: 0 <= i < |sources| ==> (keep[i] <==> IsNewest(sources, i))
    requires reserved == |sources| - Older(sources, 0)
    modifies keep
    ensures MarksMatch(sources, keep[..], if maxCount > reserved then maxCount - reserved else 0)
    ensures kept == Max(maxCount, reserved)
  {
    kept := reserved;
    var i := |sources|;
    while i > 0 && kept < maxCount
      invariant 0 <= i <= |sources|
      invariant kept == reserved + Older(sources, i) && reserved <= kept <= Max(maxCount, reserved)
      invariant forall j :: 0 <= j < i ==> (keep[j] <==> IsNewest(sources, j))
      invariant forall j :: i <= j < |sources| ==>
        keep[j] && (IsNewest(sources, j) || Older(sources, j + 1) < maxCount - reserved)
    {
      i := i - 1;
      if !keep[i] {
        keep[i] := true;
        kept := kept + 1;
      }
    }
    BudgetSpent(sources, keep[..], i, reserved, maxCount);
  }

  method CopyMarked(sources: seq<Sample>, keep: array<bool>) returns (capped: seq<Sample>)
    requires keep.Length == |sources|
    ensures capped == Marked(sources, keep[..])
  {
    capped := [];
    for i := 0 to |sources|
      invariant capped == Marked(sources[..i], keep[..i])
    {
      assert sources[..i + 1] == sources[..i] + [sources[i]] && keep[..i + 1] == keep[..i] + [keep[i]];
      MarkedSnoc(sources[..i], sources[i], keep[..i], keep[i]);
      if keep[i] {
        capped := capped + [sources[i]];
      }
    }
    assert sources[..|sources|] == sources && keep[..|sources|] == keep[..];
  }

  /** Keeps a batch within the reader's count, but the newest sample of every key in any case. */
  method CapBatch(config: Config, sources: seq<Sample>) returns (capped: seq<Sample>)
    ensures capped == Cap(config, sources)
    ensures config.Bounded() && |sources| > config.sampleCount.value ==>
      |capped| == Max(config.sampleCount.value, |KeySet(sources)|)
  {
    if !config.Bounded() || |sources| <= config.sampleCount.value {
      return sources;
    }
    CapSize(config, sources);
    var maxCount := config.sampleCount.value;
    var keep := new bool[|sources|](_ => false);
    var reserved := ReserveNewest(sources, keep);
    var _ := FillBudget(sources, keep, reserved, maxCount);
    capped := CopyMarked(sources, keep);
    MarksSelectCap(sources, keep[..], if maxCount > reserved then maxCount - reserved else 0, |sources|);
    assert sources[..|sources|] == sources && keep[..][..|sources|] == keep[..] && KeySet(sources[|sources|..]) == {};
  }

  // ----- serialising -----

  /** The last loop of finalize. */
  method DeliverBatch(c: Codec, sources: seq<Sample>) returns (batch: seq<DataSample>)
    requires AllSound(sources)
    ensures batch == Deliver(c, sources)
  {
    batch := [];
    var seen: set<Key> := {};
    for i := 0 to |sources|
      invariant batch == Deliver(c, sources[..i]) && seen == KeySet(sources[..i])
    {
      var sample := sources[i];
      var initial := ToWire(c, sample);
      if sample.key !in seen && sample.event.PartialUpdate? {
        initial := initial.(tag := 0, event := Update, value := EncodeValue(c, sample));
      }
      assert Front(sources[..i + 1]) == sources[..i];
      KeySetFront(sources[..i + 1]);
      seen := seen + {sample.key};
      batch := batch + [initial];
    }
    assert sources[..|sources|] == sources;
  }

  // ----- collecting -----

  function Rev(l: seq<Sample>): seq<Sample> {
    if l == [] then [] else [Last(l)] + Rev(Front(l))
  }

  lemma RevSnoc(l: seq<Sample>, s: Sample)
    ensures Rev(l + [s]) == [s] + Rev(l)
  {
    assert Front(l + [s]) == l;
  }

  lemma {:induction false} RevMembers(l: seq<Sample>, s: Sample)
    ensures s in Rev(l) <==> s in l
  {
    if l != [] {
      assert l == Front(l) + [Last(l)];
      RevMembers(Front(l), s);
    }
  }

  lemma {:induction false} RevAt(l: seq<Sample>, i: nat)
    requires i < |l|
    ensures |Rev(l)| == |l| && Rev(l)[|l| - 1 - i] == l[i]
  {
    if i < |l| - 1 {
      RevAt(Front(l), i);
    } else if |l| > 1 {
      RevAt(Front(l), 0);
    }
  }

  lemma RevDistinct(l: seq<Sample>)
    requires IdsIncrease(Rev(l))
    ensures DistinctIds(l)
  {
    forall i, j | 0 <= i < j < |l| ensures l[i].id != l[j].id {
      RevAt(l, i);
      RevAt(l, j);
    }
  }

  /** The scan with what it has collected so far, newest first. */
  function ScanOnto(h: seq<Sample>, q: Query, sources: seq<Sample>): seq<Sample> {
    if h == [] || q.Stale(Last(h)) || Last(h).id <= q.lastId then sources
    else if !q.Matches(Last(h)) then ScanOnto(Front(h), q, sources)
    else
      var taken := sources + [Last(h)];
      if (q.config.Bounded() && q.config.sampleCount.value == |taken|) || q.config.Clears(Last(h).event) then taken
      else ScanOnto(Front(h), q, taken)
  }

  lemma {:induction false} ScanOntoIsScan(h: seq<Sample>, q: Query, sources: seq<Sample>)
    ensures Rev(ScanOnto(h, q, sources)) == Scan(h, q, |sources|) + Rev(sources)
  {
    if h != [] && !q.Stale(Last(h)) && Last(h).id > q.lastId {
      var f, s := Front(h), Last(h);
      var older := Scan(f, q, |sources| + 1);
      RevSnoc(sources, s);
      assert (older + [s]) + Rev(sources) == older + ([s] + Rev(sources));
      if q.Matches(s) {
        ScanOntoIsScan(f, q, sources + [s]);
      } else {
        ScanOntoIsScan(f, q, sources);
      }
    }
  }

  lemma RevKeys(l: seq<Sample>)
    ensures KeySet(Rev(l)) == KeySet(l)
  {
    forall k ensures k in KeySet(Rev(l)) <==> k in KeySet(l) {
      if i :| 0 <= i < |l| && l[i].key == k {
        RevAt(l, i);
      }
      if i :| 0 <= i < |Rev(l)| && Rev(l)[i].key == k {
        RevMembers(l, Rev(l)[i]);
        assert Rev(l)[i] in l;
      }
    }
  }

  /** The scan of getSamples: newest to oldest over the history. */
  method ScanHistory(samples: seq<Sample>, q: Query) returns (sources: seq<Sample>, covered: set<Key>)
    requires IdsIncrease(samples)
    ensures Rev(sources) == Scan(samples, q, 0)
    ensures covered == KeySet(Scan(samples, q, 0))
    ensures DistinctIds(sources)
  {
    sources, covered := [], {};
    var i := |samples|;
    assert samples[..i] == samples;
    while i > 0
      invariant 0 <= i <= |samples|
      invariant ScanOnto(samples[..i], q, sources) == ScanOnto(samples, q, [])
      invariant covered == KeySet(sources)
    {
      var s := samples[i - 1];
      assert Last(samples[..i]) == s && Front(samples[..i]) == samples[..i - 1];
      if q.Stale(s) {
        break;
      }
      if s.id <= q.lastId {
        break;
      }
      if q.Matches(s) {
        KeySetSnoc(sources, s);
        sources := sources + [s];
        covered := covered + {s.key};
        if q.config.Bounded() && q.config.sampleCount.value == |sources| {
          break;
        }
        if q.config.Clears(s.event) {
          break;
        }
      }
      i := i - 1;
    }
    ScanOntoIsScan(samples, q, []);
    ScanIds(samples, q, 0);
    RevDistinct(sources);
    RevKeys(sources);
  }
}
