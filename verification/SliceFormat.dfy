/** The bytes of the Slice encoding, said without the functions that write and read them, and what readers refuse. */
module SliceFormat {
  import opened Samples
  import opened Slice
  import opened SliceReading
  import opened SliceOptional

  // ----- numbers and sizes -----

  /** Numbers are little-endian: a further byte weighs 256 times as much as the one before it. */
  lemma {:induction false} LastByteWeighsMost(b: Bytes, x: Byte)
    ensures FromBytes(b + [x]) == FromBytes(b) + (x as int) * Pow256(|b|)
  {
    if b == [] {
      assert b + [x] == [x] && [x][1..] == [];
    } else {
      LastByteWeighsMost(b[1..], x);
      assert (b + [x])[0] == b[0] && (b + [x])[1..] == b[1..] + [x];
    }
  }

  /** A size up to 254 takes one byte, any other a byte 255 and then four bytes. */
  lemma SizeBytes(n: nat)
    requires n < SIZE_LIMIT
    ensures var r := EncodeSize(n);
      if n <= 254 then r == [n as Byte] else |r| == 5 && r[0] == 255 && FromBytes(r[1..]) == n
  {
    if n > 254 {
      Int32Range(n);
      BytesRoundTrip(n, 4);
      assert EncodeSize(n)[1..] == EncodeNum(n, 4);
    }
  }

  lemma FourBytes(b: Bytes)
    requires |b| == 4
    ensures FromBytes(b) == b[0] as int + 256 * (b[1] as int) + 65536 * (b[2] as int) + 16777216 * (b[3] as int)
    ensures DecodeNum(b) < 0 <==> b[3] >= 128
  {
    assert b[1..][1..] == b[2..] && b[2..][1..] == b[3..] && b[3..][1..] == [];
    assert FromBytes(b[3..]) == b[3];
    assert FromBytes(b[2..]) == b[2] as int + 256 * (b[3] as int);
    Int32Range(0);
    assert Pow256(4) == 4294967296;
  }

  /** A size is refused if and only if its bytes are not all there, or the four bytes hold a negative number. */
  lemma SizeRefusedIff(s: In)
    requires InBounds(s)
    ensures ReadSize(s).Failed? <==>
      s.i == |s.b| || (s.b[s.i] == 255 && (s.i + 5 > |s.b| || s.b[s.i + 4] >= 128))
  {
    if s.i + 5 <= |s.b| {
      FourBytes(s.b[s.i + 1..s.i + 5]);
    }
  }

  // ----- what comes first -----

  lemma {:induction false} AllStartsWith(t: Type, vs: seq<Val>)
    requires AllHaveType(vs, t) && vs != []
    ensures Marshal(t, vs[0]) <= EncodeAll(t, vs)
  {
    if |vs| == 1 {
      assert vs[..|vs| - 1] == [];
    } else {
      AllStartsWith(t, vs[..|vs| - 1]);
    }
  }

  lemma {:induction false} EntriesStartWith(t: Type, es: seq<Entry>)
    requires EntriesHaveType(es, t) && es != []
    ensures Marshal(t.key, es[0].key) + Marshal(t.value, es[0].value) <= EncodeEntries(t, es)
  {
    if |es| == 1 {
      assert es[..|es| - 1] == [];
    } else {
      EntriesStartWith(t, es[..|es| - 1]);
    }
  }

  lemma PrefixAfter(a: Bytes, p: Bytes, b: Bytes)
    requires p <= b
    ensures a + p <= a + b
  {
  }

  /** A number is its two's complement, a string its size and its bytes, and an enumerator a size. */
  lemma ScalarBytes(w: nat, n: int, b: Bytes, min: nat, max: nat)
    ensures InRange(n, w) ==> FromBytes(Marshal(Fixed(w), Num(n))) == (if n < 0 then n + Pow256(w) else n)
    ensures |b| < SIZE_LIMIT ==> Marshal(Text, Str(b)) == EncodeSize(|b|) + b
    ensures min <= n <= max && n < SIZE_LIMIT ==> Marshal(Enum(min, max), Num(n)) == EncodeSize(n)
  {
    if InRange(n, w) {
      BytesRoundTrip(if n < 0 then n + Pow256(w) else n, w);
    }
  }

  /** A struct starts with its first field. */
  lemma StructStartsWith(t: Type, rest: Fields, v: Val, vs: seq<Val>)
    requires HasType(v, t) && HasFields(vs, rest)
    ensures HasFields([v] + vs, Field(t, rest))
    ensures Marshal(Struct(Field(t, rest)), Record([v] + vs)) == Marshal(t, v) + EncodeFields(rest, vs)
  {
    assert ([v] + vs)[1..] == vs;
  }

  /** A sequence starts with its size, and then its first element. */
  lemma SequenceStartsWith(t: Type, vs: seq<Val>)
    requires AllHaveType(vs, t) && 0 < |vs| < SIZE_LIMIT
    ensures HasType(List(vs), Sequence(t)) && HasType(vs[0], t)
    ensures EncodeSize(|vs|) + Marshal(t, vs[0]) <= Marshal(Sequence(t), List(vs))
  {
    AllStartsWith(t, vs);
    PrefixAfter(EncodeSize(|vs|), Marshal(t, vs[0]), EncodeAll(t, vs));
  }

  /** A dictionary starts with its size, and then the key and the value of its first entry. */
  lemma DictionaryStartsWith(t: Type, es: seq<Entry>)
    requires t.Dictionary? && EntriesHaveType(es, t) && DistinctKeys(es) && 0 < |es| < SIZE_LIMIT
    ensures HasType(Dict(es), t) && HasType(es[0].key, t.key) && HasType(es[0].value, t.value)
    ensures EncodeSize(|es|) + (Marshal(t.key, es[0].key) + Marshal(t.value, es[0].value)) <= Marshal(t, Dict(es))
  {
    EntriesStartWith(t, es);
    var first := Marshal(t.key, es[0].key) + Marshal(t.value, es[0].value);
    PrefixAfter(EncodeSize(|es|), first, EncodeEntries(t, es));
  }

  // ----- minWireSize is attained -----

  /** Every enum in the type has an enumerator that takes one byte. */
  predicate IsPlain(t: Type) {
    match t
    case Enum(min, max) => min <= max && min <= 254
    case Struct(fs) => ArePlain(fs)
    case _ => true
  }

  predicate ArePlain(fs: Fields) {
    match fs
    case End => true
    case Field(t, rest) => IsPlain(t) && ArePlain(rest)
  }

  function Least(t: Type): Val
    decreases t, 1
  {
    match t
    case Fixed(_) => Num(0)
    case Text => Str([])
    case Enum(min, _) => Num(min)
    case Struct(fs) => Record(LeastFields(fs))
    case Sequence(_) => List([])
    case Dictionary(_, _) => Dict([])
  }

  function LeastFields(fs: Fields): seq<Val>
    decreases fs, 0
  {
    match fs
    case End => []
    case Field(t, rest) => [Least(t)] + LeastFields(rest)
  }

  /** minWireSize is the exact minimum: some value takes that many bytes. */
  lemma {:induction false} MinWireIsAttained(t: Type)
    requires IsPlain(t)
    ensures HasType(Least(t), t) && |Marshal(t, Least(t))| == MinWire(t)
    decreases t, 1
  {
    if t.Struct? {
      MinWireFieldsIsAttained(t.fields);
    }
  }

  lemma {:induction false} MinWireFieldsIsAttained(fs: Fields)
    requires ArePlain(fs)
    ensures HasFields(LeastFields(fs), fs) && |EncodeFields(fs, LeastFields(fs))| == MinWireFields(fs)
    decreases fs, 0
  {
    if fs.Field? {
      MinWireIsAttained(fs.first);
      MinWireFieldsIsAttained(fs.rest);
      assert LeastFields(fs)[1..] == LeastFields(fs.rest);
    }
  }

  function FieldTypes(fs: Fields): seq<Type> {
    match fs
    case End => []
    case Field(t, rest) => [t] + FieldTypes(rest)
  }

  ghost predicate AllFixed(ts: seq<Type>) {
    forall i :: 0 <= i < |ts| ==> FixedLength(ts[i])
  }

  lemma {:induction false} FixedFieldsMeans(fs: Fields)
    ensures FixedFields(fs) <==> AllFixed(FieldTypes(fs))
  {
    if fs.Field? {
      FixedFieldsMeans(fs.rest);
      var ts, rest := FieldTypes(fs), FieldTypes(fs.rest);
      assert ts[0] == fs.first && forall i :: 0 <= i < |rest| ==> ts[i + 1] == rest[i];
      assert AllFixed(ts) <==> FixedLength(fs.first) && AllFixed(rest);
    }
  }

  /** The types of fixed length are the numbers, and the structs all of whose fields have a fixed length. */
  lemma FixedLengthMeans(t: Type)
    ensures FixedLength(t) <==> t.Fixed? || (t.Struct? && AllFixed(FieldTypes(t.fields)))
  {
    if t.Struct? {
      FixedFieldsMeans(t.fields);
    }
  }

  // ----- the sequence size check -----

  /** A sequence size is accepted only if the elements, each as short as can be, fit in what is left of the buffer. */
  lemma AcceptedSizeFits(min: nat, s: In)
    requires InBounds(s) && ReadSeqSize(min, s).Ok?
    ensures ReadSeqSize(min, s).rest.i + ReadSeqSize(min, s).value * min <= |s.b|
  {
  }

  /** What the check asks for: the elements of this sequence on top of what the enclosing sequences still expect, or
      alone when that is past. */
  function Expected(s: In, need: int): int {
    if s.startSeq != -1 && s.i <= s.startSeq + s.minSeqSize then s.startSeq + s.minSeqSize + need else s.i + need
  }

  /** A non-empty sequence is refused if and only if what is expected goes beyond the buffer; if not, that is expected
      from then on. */
  lemma SeqSizeRefusedIff(min: nat, s: In, n: nat, s1: In)
    requires InBounds(s) && ReadSize(s) == Ok(n, s1) && n > 0
    ensures
      var r := ReadSeqSize(min, s);
      && (r.Failed? <==> Expected(s1, n * min) > |s.b|)
      && (r.Ok? ==> r.value == n && r.rest.i == s1.i && r.rest.startSeq + r.rest.minSeqSize == Expected(s1, n * min))
  {
  }

  // ----- optionals -----

  /** The number of the optional format of a type. */
  function FormatNumber(t: Type): Byte {
    match t
    case Fixed(w) => if w == 1 then 0 else if w == 2 then 1 else if w == 4 then 2 else 3
    case Enum(_, _) => 4
    case Text => 5
    case Struct(_) => if FixedLength(t) then 5 else 6
    case Sequence(e) => if FixedLength(e) then 5 else 6
    case Dictionary(k, v) => if FixedLength(k) && FixedLength(v) then 5 else 6
  }

  /** The value is its own optional encoding: it has a fixed format, or its size is its number of one-byte elements. */
  predicate IsBare(t: Type) {
    match t
    case Struct(_) => false
    case Sequence(e) => FixedLength(e) && MinWire(e) == 1
    case Dictionary(k, v) => FixedLength(k) && FixedLength(v) && MinWire(k) + MinWire(v) == 1
    case _ => true
  }

  /** An optional is the value with, where its own encoding does not tell, the exact number of its bytes before it: as a
      size when the type's elements have a fixed length, else in four bytes. */
  lemma OptionalBytes(t: Type, v: Val)
    requires HasType(v, t) && Fits(t, v)
    ensures
      var b := Marshal(t, v);
      if IsBare(t) then MarshalOptional(t, v) == b
      else if FormatNumber(t) == 5 then |b| < SIZE_LIMIT && MarshalOptional(t, v) == EncodeSize(|b|) + b
      else InRange(|b|, 4) && MarshalOptional(t, v) == EncodeNum(|b|, 4) + b
  {
    if !WrittenAsIs(t) {
      if FormatOf(t).VSize? {
        AnnouncedIsExact(t, v);
      } else {
        Int32Range(|Marshal(t, v)|);
      }
    }
  }

  /** The header of a member: the tag, or 30 for a greater one, times eight, plus the number of the format; a tag above
      29 follows as a size. */
  lemma HeaderBytes(tag: nat, t: Type)
    requires tag < SIZE_LIMIT
    ensures var h := Header(tag, FormatOf(t));
      if tag < 30 then h == [8 * tag + FormatNumber(t)]
      else |h| > 1 && h[0] == 240 + FormatNumber(t) && h[1..] == EncodeSize(tag)
  {
    assert Code(FormatOf(t)) == FormatNumber(t);
    if tag >= 30 {
      assert Header(tag, FormatOf(t))[1..] == EncodeSize(tag);
    }
  }

  /** No header starts with a byte of 248 or more: it is refused. */
  lemma BadTagIsRefused(s: In)
    requires s.i < |s.b| && s.b[s.i] >= 248
    ensures ReadTag(s).Failed?
  {
  }

  /** A member that is there under the tag but in another format is refused. */
  lemma OtherFormatIsRefused(tag: nat, f: Format, g: Format, s: In, end: nat, c: nat)
    requires tag < SIZE_LIMIT && !g.Class? && f != g && At(s, Header(tag, g), c) && s.i < end
    ensures InBounds(s) && Find(tag, f, s, end).Failed?
  {
    HeaderAt(tag, g, s, c);
  }

  // ----- dictionaries -----

  /** Reading an entry sets its key: the others are as before, in the same order but for a new one, which comes last. */
  lemma {:induction false} InsertSetsKey(es: seq<Entry>, e: Entry)
    requires DistinctKeys(es)
    ensures
      var r := Insert(es, e);
      if exists i :: 0 <= i < |es| && es[i].key == e.key then
        |r| == |es| && forall i :: 0 <= i < |es| ==> r[i] == if es[i].key == e.key then e else es[i]
      else r == es + [e]
  {
    if es == [] {
    } else if es[0].key == e.key {
      assert forall i :: 0 < i < |es| ==> es[i].key != e.key;
    } else {
      var rest := es[1..];
      assert forall i :: 0 <= i < |rest| ==> rest[i] == es[i + 1];
      InsertSetsKey(rest, e);
      if i :| 0 <= i < |es| && es[i].key == e.key {
        assert rest[i - 1].key == e.key;
      }
    }
  }
}
