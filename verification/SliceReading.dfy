/** Reading Slice-encoded data back, with the check that a sequence size fits in what is left of the buffer. */
module SliceReading {
  import opened Samples
  import opened Slice

  /** An input stream: the buffer, the position, and the state of the sequence size check. `startSeq` is -1 until a
      non-empty sequence has been read. */
  datatype In = In(b: Bytes, i: nat, startSeq: int, minSeqSize: int)

  /** Reading fails when the data is out of bounds or malformed. */
  datatype Read<T> = Ok(value: T, rest: In) | Failed

  predicate InBounds(s: In) {
    s.i <= |s.b|
  }

  /** What every read keeps: the buffer, and a position that only moves forward inside it. */
  predicate Advanced(s: In, s': In) {
    s'.b == s.b && s.i <= s'.i <= |s'.b|
  }

  function Take(s: In, n: nat): (r: Read<Bytes>)
    requires InBounds(s)
    ensures r.Ok? ==> Advanced(s, r.rest) && r.rest.i == s.i + n && |r.value| == n
  {
    if s.i + n > |s.b| then Failed else Ok(s.b[s.i..s.i + n], s.(i := s.i + n))
  }

  function ReadNum(w: nat, s: In): (r: Read<int>)
    requires InBounds(s)
    ensures r.Ok? ==> Advanced(s, r.rest)
  {
    match Take(s, w)
    case Failed => Failed
    case Ok(b, s') => Ok(DecodeNum(b), s')
  }

  /** readSize: negative sizes are refused. */
  function ReadSize(s: In): (r: Read<int>)
    requires InBounds(s)
    ensures r.Ok? ==> Advanced(s, r.rest) && r.value >= 0 && r.rest.i >= s.i + if r.value > 254 then 5 else 1
  {
    match Take(s, 1)
    case Failed => Failed
    case Ok(b, s1) =>
      if b[0] != 255 then Ok(b[0], s1)
      else
        match ReadNum(4, s1)
        case Failed => Failed
        case Ok(n, s2) => if n < 0 then Failed else Ok(n, s2)
  }

  /** The check of a non-empty sequence of `n` elements that takes at least `need` bytes: either what the enclosing
      sequences expected is past, and the check starts anew, or this sequence adds to it. */
  function CheckSeqSize(n: nat, need: int, s: In): (r: Read<int>)
    requires InBounds(s)
    ensures r.Ok? ==> Advanced(s, r.rest) && r.value == n
  {
    var anew := s.startSeq == -1 || s.i > s.startSeq + s.minSeqSize;
    var startSeq := if anew then s.i else s.startSeq;
    var minSeqSize := if anew then need else need + s.minSeqSize;
    if startSeq + minSeqSize > |s.b| then Failed else Ok(n, s.(startSeq := startSeq, minSeqSize := minSeqSize))
  }

  /** readAndCheckSeqSize. */
  function ReadSeqSize(min: nat, s: In): (r: Read<int>)
    requires InBounds(s)
    ensures r.Ok? ==> Advanced(s, r.rest) && r.value >= 0
  {
    match ReadSize(s)
    case Failed => Failed
    case Ok(n, s1) => if n == 0 then Ok(0, s1) else CheckSeqSize(n, n * min, s1)
  }

  /** The dictionary after reading an entry: a repeated key gets the later value. */
  function Insert(es: seq<Entry>, e: Entry): seq<Entry> {
    if es == [] then [e]
    else if es[0].key == e.key then [e] + es[1..]
    else [es[0]] + Insert(es[1..], e)
  }

  function ReadText(s: In): (r: Read<Val>)
    requires InBounds(s)
    ensures r.Ok? ==> Advanced(s, r.rest)
  {
    match ReadSize(s)
    case Failed => Failed
    case Ok(n, s1) =>
      match Take(s1, n)
      case Failed => Failed
      case Ok(b, s2) => Ok(Str(b), s2)
  }

  /** An enumerator out of range is refused. */
  function ReadEnum(min: nat, max: nat, s: In): (r: Read<Val>)
    requires InBounds(s)
    ensures r.Ok? ==> Advanced(s, r.rest)
  {
    match ReadSize(s)
    case Failed => Failed
    case Ok(n, s') => if min <= n <= max then Ok(Num(n), s') else Failed
  }

  function Mapped<T>(r: Read<T>, f: T -> Val): Read<Val> {
    match r
    case Failed => Failed
    case Ok(x, s) => Ok(f(x), s)
  }

  /** StreamHelper::read. */
  function Unmarshal(t: Type, s: In): (r: Read<Val>)
    requires InBounds(s)
    ensures r.Ok? ==> Advanced(s, r.rest)
    decreases t, 3, 0
  {
    match t
    case Fixed(w) => Mapped(ReadNum(w, s), n => Num(n))
    case Text => ReadText(s)
    case Enum(min, max) => ReadEnum(min, max, s)
    case Struct(fs) => Mapped(DecodeFields(fs, s), vs => Record(vs))
    case Sequence(_) => DecodeSequence(t, s)
    case Dictionary(_, _) => DecodeDictionary(t, s)
  }

  function DecodeSequence(t: Type, s: In): (r: Read<Val>)
    requires t.Sequence? && InBounds(s)
    ensures r.Ok? ==> Advanced(s, r.rest)
    decreases t, 2, 0
  {
    match ReadSeqSize(MinWire(t.element), s)
    case Failed => Failed
    case Ok(n, s1) => Mapped(DecodeAll(t.element, n, s1), vs => List(vs))
  }

  function DecodeDictionary(t: Type, s: In): (r: Read<Val>)
    requires t.Dictionary? && InBounds(s)
    ensures r.Ok? ==> Advanced(s, r.rest)
    decreases t, 2, 0
  {
    match ReadSize(s)
    case Failed => Failed
    case Ok(n, s1) => Mapped(DecodeEntries(t, n, s1), es => Dict(es))
  }

  function DecodeFields(fs: Fields, s: In): (r: Read<seq<Val>>)
    requires InBounds(s)
    ensures r.Ok? ==> Advanced(s, r.rest)
    decreases fs, 0, 0
  {
    match fs
    case End => Ok([], s)
    case Field(t, rest) =>
      match Unmarshal(t, s)
      case Failed => Failed
      case Ok(v, s1) =>
        match DecodeFields(rest, s1)
        case Failed => Failed
        case Ok(vs, s2) => Ok([v] + vs, s2)
  }

  /** The first `n` elements, in order. */
  function DecodeAll(t: Type, n: nat, s: In): (r: Read<seq<Val>>)
    requires InBounds(s)
    ensures r.Ok? ==> Advanced(s, r.rest)
    decreases t, 4, n
  {
    if n == 0 then Ok([], s)
    else
      match DecodeAll(t, n - 1, s)
      case Failed => Failed
      case Ok(vs, s1) =>
        match Unmarshal(t, s1)
        case Failed => Failed
        case Ok(v, s2) => Ok(vs + [v], s2)
  }

  function DecodeEntry(t: Type, s: In): (r: Read<Entry>)
    requires t.Dictionary? && InBounds(s)
    ensures r.Ok? ==> Advanced(s, r.rest)
    decreases t, 0, 0
  {
    match Unmarshal(t.key, s)
    case Failed => Failed
    case Ok(k, s1) =>
      match Unmarshal(t.value, s1)
      case Failed => Failed
      case Ok(m, s2) => Ok(Entry(k, m), s2)
  }

  function DecodeEntries(t: Type, n: nat, s: In): (r: Read<seq<Entry>>)
    requires t.Dictionary? && InBounds(s)
    ensures r.Ok? ==> Advanced(s, r.rest)
    decreases t, 1, n
  {
    if n == 0 then Ok([], s)
    else
      match DecodeEntries(t, n - 1, s)
      case Failed => Failed
      case Ok(es, s1) =>
        match DecodeEntry(t, s1)
        case Failed => Failed
        case Ok(e, s2) => Ok(Insert(es, e), s2)
  }

  // ----- round trip -----

  /** The stream is at `b`, and at least `c` more bytes follow. */
  predicate At(s: In, b: Bytes, c: nat) {
    s.i + |b| + c <= |s.b| && s.b[s.i..s.i + |b|] == b
  }

  /** The size check expects data up to position `x` at most. */
  predicate ExpectsAtMost(s: In, x: int) {
    s.startSeq == -1 || s.startSeq + s.minSeqSize <= x
  }

  predicate PastBytes(s: In, s': In, n: nat) {
    s'.b == s.b && s'.i == s.i + n
  }

  lemma AtSplit(s: In, b1: Bytes, b2: Bytes, c: nat)
    requires At(s, b1 + b2, c)
    ensures At(s, b1, |b2| + c)
    ensures forall s': In :: PastBytes(s, s', |b1|) ==> At(s', b2, c)
  {
    var n := s.i + |b1|;
    assert (b1 + b2)[..|b1|] == b1 && (b1 + b2)[|b1|..] == b2;
    assert s.b[s.i..s.i + |b1 + b2|][..|b1|] == s.b[s.i..n];
    assert s.b[s.i..s.i + |b1 + b2|][|b1|..] == s.b[n..n + |b2|];
  }

  lemma NumAt(s: In, n: int, w: nat, c: nat)
    requires InRange(n, w) && At(s, EncodeNum(n, w), c)
    ensures InBounds(s) && ReadNum(w, s) == Ok(n, s.(i := s.i + w))
  {
    NumRoundTrip(n, w);
  }

  lemma SizeAt(s: In, n: nat, c: nat)
    requires n < SIZE_LIMIT && At(s, EncodeSize(n), c)
    ensures InBounds(s) && ReadSize(s) == Ok(n, s.(i := s.i + |EncodeSize(n)|))
  {
    if n > 254 {
      Int32Range(n);
      var s1 := s.(i := s.i + 1);
      AtSplit(s, [255 as Byte], EncodeNum(n, 4), c);
      assert PastBytes(s, s1, 1);
      NumAt(s1, n, 4, c);
      assert s.b[s.i..s.i + 1] == [255 as Byte];
    } else {
      assert s.b[s.i..s.i + 1] == [n as Byte];
    }
  }

  lemma CheckAt(s: In, n: nat, need: nat, c: nat)
    requires s.i + need + c <= |s.b| && ExpectsAtMost(s, s.i + c)
    ensures var r := CheckSeqSize(n, need, s);
      r.Ok? && PastBytes(s, r.rest, 0) && ExpectsAtMost(r.rest, r.rest.i + need + c)
  {
  }

  /** The size check never refuses written data: with `n` elements of at least `min` bytes and `c` further bytes in the
      buffer, the size is accepted, and what is expected from then on is within those bytes. */
  lemma SeqSizeAt(s: In, n: nat, min: nat, need: nat, c: nat)
    requires n < SIZE_LIMIT && need == n * min && At(s, EncodeSize(n), need + c) && ExpectsAtMost(s, s.i + 1 + c)
    ensures InBounds(s)
    ensures var r := ReadSeqSize(min, s);
      && r.Ok? && r.value == n && PastBytes(s, r.rest, |EncodeSize(n)|)
      && ExpectsAtMost(r.rest, r.rest.i + need + c)
  {
    SizeAt(s, n, need + c);
    if n > 0 {
      CheckAt(ReadSize(s).rest, n, need, c);
    }
  }

  /** The read succeeded with value `v`, `n` bytes on, and expects nothing beyond the `c` bytes known to follow. */
  predicate ReadsAs<T(==)>(r: Read<T>, v: T, s: In, n: nat, c: nat) {
    r.Ok? && r.value == v && PastBytes(s, r.rest, n) && ExpectsAtMost(r.rest, r.rest.i + c)
  }

  lemma TextAt(b: Bytes, s: In, s1: In, c: nat)
    requires InBounds(s) && ReadSize(s) == Ok(|b|, s1) && At(s1, b, c)
    ensures Unmarshal(Text, s) == Ok(Str(b), s1.(i := s1.i + |b|))
  {
    assert Take(s1, |b|) == Ok(b, s1.(i := s1.i + |b|));
    assert Unmarshal(Text, s) == ReadText(s);
  }

  lemma TextRoundTrip(b: Bytes, s: In, c: nat)
    requires |b| < SIZE_LIMIT && At(s, EncodeSize(|b|) + b, c) && ExpectsAtMost(s, s.i + 1 + c)
    ensures InBounds(s) && ReadsAs(Unmarshal(Text, s), Str(b), s, |EncodeSize(|b|) + b|, c)
  {
    var size := EncodeSize(|b|);
    var s1 := s.(i := s.i + |size|);
    AtSplit(s, size, b, c);
    SizeAt(s, |b|, |b| + c);
    assert PastBytes(s, s1, |size|);
    TextAt(b, s, s1, c);
  }

  /** Reading a written value returns it and leaves the stream right after it, whatever surrounds it. */
  lemma {:induction false} RoundTrip(t: Type, v: Val, s: In, c: nat)
    requires HasType(v, t) && At(s, Marshal(t, v), c) && ExpectsAtMost(s, s.i + MinWire(t) + c)
    ensures InBounds(s) && ReadsAs(Unmarshal(t, s), v, s, |Marshal(t, v)|, c)
    decreases t, 1, 0
  {
    match t
    case Fixed(w) => NumAt(s, v.n, w, c);
    case Text => TextRoundTrip(v.bytes, s, c);
    case Enum(_, _) => SizeAt(s, v.n, c);
    case Struct(fs) => FieldsRoundTrip(fs, v.fields, s, c);
    case Sequence(e) => SequenceRoundTrip(t, v.elements, s, c);
    case Dictionary(_, _) => DictionaryRoundTrip(t, v.entries, s, c);
  }

  lemma {:induction false} FieldsRoundTrip(fs: Fields, vs: seq<Val>, s: In, c: nat)
    requires HasFields(vs, fs) && At(s, EncodeFields(fs, vs), c) && ExpectsAtMost(s, s.i + MinWireFields(fs) + c)
    ensures InBounds(s) && ReadsAs(DecodeFields(fs, s), vs, s, |EncodeFields(fs, vs)|, c)
    decreases fs, 0, 0
  {
    match fs
    case End =>
    case Field(t, rest) =>
      FieldsLength(rest, vs[1..]);
      AtSplit(s, Marshal(t, vs[0]), EncodeFields(rest, vs[1..]), c);
      RoundTrip(t, vs[0], s, MinWireFields(rest) + c);
      FieldsRoundTrip(rest, vs[1..], Unmarshal(t, s).rest, c);
      assert vs == [vs[0]] + vs[1..];
  }

  /** `n` times `m`, added up. */
  function Total(n: nat, m: nat): nat {
    if n == 0 then 0 else Total(n - 1, m) + m
  }

  lemma {:induction false} TotalIsProduct(n: nat, m: nat)
    ensures Total(n, m) == n * m
  {
    if n > 0 {
      TotalIsProduct(n - 1, m);
      assert n * m == (n - 1) * m + m;
    }
  }

  /** A sequence but for its last element, with what that takes at least, and then the last element. */
  lemma AllParts(t: Type, init: seq<Val>, last: Val, s: In, c: nat)
    requires AllHaveType(init, t) && HasType(last, t) && AllHaveType(init + [last], t)
    requires At(s, EncodeAll(t, init + [last]), c)
    ensures EncodeAll(t, init + [last]) == EncodeAll(t, init) + Marshal(t, last)
    ensures At(s, EncodeAll(t, init), MinWire(t) + c)
    ensures forall s': In :: PastBytes(s, s', |EncodeAll(t, init)|) ==> At(s', Marshal(t, last), c)
  {
    assert (init + [last])[..|init|] == init;
    EncodedLength(t, last);
    AtSplit(s, EncodeAll(t, init), Marshal(t, last), c);
  }

  lemma AllStep(t: Type, init: seq<Val>, last: Val, s: In, n1: nat, n2: nat, c1: nat, c: nat)
    requires InBounds(s) && ReadsAs(DecodeAll(t, |init|, s), init, s, n1, c1)
    requires ReadsAs(Unmarshal(t, DecodeAll(t, |init|, s).rest), last, DecodeAll(t, |init|, s).rest, n2, c)
    ensures ReadsAs(DecodeAll(t, |init| + 1, s), init + [last], s, n1 + n2, c)
  {
  }

  lemma {:induction false} AllRoundTrip(t: Type, vs: seq<Val>, s: In, c: nat)
    requires AllHaveType(vs, t) && At(s, EncodeAll(t, vs), c) && ExpectsAtMost(s, s.i + Total(|vs|, MinWire(t)) + c)
    ensures InBounds(s) && ReadsAs(DecodeAll(t, |vs|, s), vs, s, |EncodeAll(t, vs)|, c)
    decreases t, 2, |vs|
  {
    if vs != [] {
      var init, last := vs[..|vs| - 1], vs[|vs| - 1];
      assert vs == init + [last];
      AllParts(t, init, last, s, c);
      AllRoundTrip(t, init, s, MinWire(t) + c);
      RoundTrip(t, last, DecodeAll(t, |init|, s).rest, c);
      AllStep(t, init, last, s, |EncodeAll(t, init)|, |Marshal(t, last)|, MinWire(t) + c, c);
    }
  }

  lemma {:induction false} SequenceRoundTrip(t: Type, vs: seq<Val>, s: In, c: nat)
    requires HasType(List(vs), t) && t.Sequence? && At(s, Marshal(t, List(vs)), c) && ExpectsAtMost(s, s.i + 1 + c)
    ensures InBounds(s) && ReadsAs(Unmarshal(t, s), List(vs), s, |Marshal(t, List(vs))|, c)
    decreases t, 0, 0
  {
    var e := t.element;
    AllLength(e, vs);
    AtSplit(s, EncodeSize(|vs|), EncodeAll(e, vs), c);
    TotalIsProduct(|vs|, MinWire(e));
    SeqSizeAt(s, |vs|, MinWire(e), Total(|vs|, MinWire(e)), c);
    AllRoundTrip(e, vs, ReadSeqSize(MinWire(e), s).rest, c);
  }

  lemma {:induction false} InsertNew(es: seq<Entry>, e: Entry)
    requires forall i :: 0 <= i < |es| ==> es[i].key != e.key
    ensures Insert(es, e) == es + [e]
  {
    if es != [] {
      InsertNew(es[1..], e);
      assert es == [es[0]] + es[1..];
    }
  }

  lemma {:induction false} EntryRoundTrip(t: Type, e: Entry, s: In, c: nat)
    requires t.Dictionary? && HasType(e.key, t.key) && HasType(e.value, t.value)
    requires At(s, EncodeEntry(t, e), c) && ExpectsAtMost(s, s.i + c)
    ensures InBounds(s) && ReadsAs(DecodeEntry(t, s), e, s, |EncodeEntry(t, e)|, c)
    decreases t, 0, 0
  {
    EncodedLength(t.value, e.value);
    AtSplit(s, Marshal(t.key, e.key), Marshal(t.value, e.value), c);
    RoundTrip(t.key, e.key, s, MinWire(t.value) + c);
    RoundTrip(t.value, e.value, Unmarshal(t.key, s).rest, c);
  }

  lemma {:induction false} EntriesRoundTrip(t: Type, es: seq<Entry>, s: In, c: nat)
    requires EntriesHaveType(es, t) && DistinctKeys(es) && At(s, EncodeEntries(t, es), c) && ExpectsAtMost(s, s.i + c)
    ensures InBounds(s) && ReadsAs(DecodeEntries(t, |es|, s), es, s, |EncodeEntries(t, es)|, c)
    decreases t, 0, |es| + 1
  {
    if es != [] {
      var init, last := es[..|es| - 1], es[|es| - 1];
      AtSplit(s, EncodeEntries(t, init), EncodeEntry(t, last), c);
      EntriesRoundTrip(t, init, s, c);
      EntryRoundTrip(t, last, DecodeEntries(t, |init|, s).rest, c);
      InsertNew(init, last);
      assert es == init + [last];
    }
  }

  lemma {:induction false} DictionaryRoundTrip(t: Type, es: seq<Entry>, s: In, c: nat)
    requires HasType(Dict(es), t) && t.Dictionary? && At(s, Marshal(t, Dict(es)), c) && ExpectsAtMost(s, s.i + 1 + c)
    ensures InBounds(s) && ReadsAs(Unmarshal(t, s), Dict(es), s, |Marshal(t, Dict(es))|, c)
    decreases t, 0, |es| + 2
  {
    AtSplit(s, EncodeSize(|es|), EncodeEntries(t, es), c);
    SizeAt(s, |es|, |EncodeEntries(t, es)| + c);
    var s1 := ReadSize(s).rest;
    assert PastBytes(s, s1, |EncodeSize(|es|)|);
    EntriesRoundTrip(t, es, s1, c);
  }

  /** A message: values of given types, one after the other. */
  lemma {:induction false} MessageRoundTrip(fs: Fields, vs: seq<Val>, rest: Bytes)
    requires HasFields(vs, fs)
    ensures var b := EncodeFields(fs, vs) + rest;
      var r := DecodeFields(fs, In(b, 0, -1, 0));
      r.Ok? && r.value == vs && r.rest.b[r.rest.i..] == rest
  {
    var b := EncodeFields(fs, vs) + rest;
    var s := In(b, 0, -1, 0);
    assert s.b[s.i..s.i + |EncodeFields(fs, vs)|] == EncodeFields(fs, vs);
    FieldsRoundTrip(fs, vs, s, 0);
  }

  // ----- reading arbitrary data -----

  lemma DecodedNumInRange(b: Bytes)
    ensures InRange(DecodeNum(b), |b|)
  {
    FromBytesBound(b);
  }

  lemma SizeInRange(s: In)
    requires InBounds(s) && ReadSize(s).Ok?
    ensures ReadSize(s).value < SIZE_LIMIT
  {
    if s.i + 5 <= |s.b| {
      DecodedNumInRange(s.b[s.i + 1..s.i + 5]);
    }
    Int32Range(0);
    assert Pow256(4) == 2 * SIZE_LIMIT by {
      assert Pow256(1) == 256 && Pow256(2) == 65536 && Pow256(3) == 16777216;
    }
  }

  lemma SeqSizeInRange(min: nat, s: In)
    requires InBounds(s) && ReadSeqSize(min, s).Ok?
    ensures ReadSeqSize(min, s).value < SIZE_LIMIT
  {
    SizeInRange(s);
  }

  lemma {:induction false} InsertMembers(es: seq<Entry>, e: Entry, x: Entry)
    requires x in Insert(es, e)
    ensures x == e || x in es
  {
    if es != [] && es[0].key != e.key && x != es[0] {
      assert x in Insert(es[1..], e);
      InsertMembers(es[1..], e, x);
    }
  }

  lemma {:induction false} InsertDistinct(es: seq<Entry>, e: Entry)
    requires DistinctKeys(es)
    ensures DistinctKeys(Insert(es, e)) && |Insert(es, e)| <= |es| + 1
  {
    if es != [] && es[0].key != e.key {
      InsertDistinct(es[1..], e);
      var r := Insert(es[1..], e);
      forall i | 0 <= i < |r| ensures r[i].key != es[0].key {
        InsertMembers(es[1..], e, r[i]);
        if r[i] != e {
          var j :| 0 <= j < |es[1..]| && es[1..][j] == r[i];
          assert es[j + 1] == r[i];
        }
      }
    }
  }

  /** Whatever the bytes are, what is read has the type that was asked for: numbers and enumerators in range, sizes that
      fit, no key twice. */
  lemma {:induction false} ReadHasType(t: Type, s: In)
    requires InBounds(s) && Unmarshal(t, s).Ok?
    ensures HasType(Unmarshal(t, s).value, t)
    decreases t, 3, 0
  {
    match t
    case Fixed(w) => DecodedNumInRange(s.b[s.i..s.i + w]);
    case Text => SizeInRange(s);
    case Enum(_, _) => SizeInRange(s);
    case Struct(fs) => FieldsHaveType(fs, s);
    case Sequence(e) => SequenceHasType(t, s);
    case Dictionary(_, _) => DictionaryHasType(t, s);
  }

  lemma {:induction false} FieldsHaveType(fs: Fields, s: In)
    requires InBounds(s) && DecodeFields(fs, s).Ok?
    ensures HasFields(DecodeFields(fs, s).value, fs)
    decreases fs, 0, 0
  {
    match fs
    case End =>
    case Field(t, rest) =>
      ReadHasType(t, s);
      FieldsHaveType(rest, Unmarshal(t, s).rest);
      var vs := DecodeFields(fs, s).value;
      assert vs[1..] == DecodeFields(rest, Unmarshal(t, s).rest).value;
  }

  lemma {:induction false} ElementsHaveType(t: Type, n: nat, s: In)
    requires InBounds(s) && DecodeAll(t, n, s).Ok?
    ensures AllHaveType(DecodeAll(t, n, s).value, t) && |DecodeAll(t, n, s).value| == n
    decreases t, 4, n
  {
    if n > 0 {
      ElementsHaveType(t, n - 1, s);
      ReadHasType(t, DecodeAll(t, n - 1, s).rest);
    }
  }

  lemma {:induction false} SequenceHasType(t: Type, s: In)
    requires t.Sequence? && InBounds(s) && Unmarshal(t, s).Ok?
    ensures HasType(Unmarshal(t, s).value, t)
    decreases t, 2, 0
  {
    var r := ReadSeqSize(MinWire(t.element), s);
    SeqSizeInRange(MinWire(t.element), s);
    ElementsHaveType(t.element, r.value, r.rest);
  }

  lemma {:induction false} EntriesAreTyped(t: Type, n: nat, s: In)
    requires t.Dictionary? && InBounds(s) && DecodeEntries(t, n, s).Ok?
    ensures var es := DecodeEntries(t, n, s).value; EntriesHaveType(es, t) && DistinctKeys(es) && |es| <= n
    decreases t, 1, n
  {
    if n > 0 {
      EntriesAreTyped(t, n - 1, s);
      var es, s1 := DecodeEntries(t, n - 1, s).value, DecodeEntries(t, n - 1, s).rest;
      ReadHasType(t.key, s1);
      ReadHasType(t.value, Unmarshal(t.key, s1).rest);
      var e := DecodeEntry(t, s1).value;
      InsertDistinct(es, e);
      var r := Insert(es, e);
      forall i | 0 <= i < |r| ensures HasType(r[i].key, t.key) && HasType(r[i].value, t.value) {
        InsertMembers(es, e, r[i]);
      }
    }
  }

  lemma {:induction false} DictionaryHasType(t: Type, s: In)
    requires t.Dictionary? && InBounds(s) && Unmarshal(t, s).Ok?
    ensures HasType(Unmarshal(t, s).value, t)
    decreases t, 2, 0
  {
    SizeInRange(s);
    EntriesAreTyped(t, ReadSize(s).value, ReadSize(s).rest);
  }

  /** Writing what was read, from whatever bytes, and reading it again gives the same value. */
  lemma RewritingIsStable(t: Type, s: In)
    requires InBounds(s) && Unmarshal(t, s).Ok?
    ensures HasType(Unmarshal(t, s).value, t)
    ensures var v := Unmarshal(t, s).value;
      var r := Unmarshal(t, In(Marshal(t, v), 0, -1, 0));
      r.Ok? && r.value == v && r.rest.i == |Marshal(t, v)|
  {
    ReadHasType(t, s);
    var v := Unmarshal(t, s).value;
    RoundTrip(t, v, In(Marshal(t, v), 0, -1, 0), 0);
  }
}
