/** The Slice encoding (version 1.1) of the types built from fixed-width values, strings, enums, structs, sequences and
    dictionaries. */
module Slice {
  import opened Samples

  datatype Type =
    | Fixed(width: nat)
    | Text
    | Enum(min: nat, max: nat)
    | Struct(fields: Fields)
    | Sequence(element: Type)
    | Dictionary(key: Type, value: Type)

  datatype Fields = End | Field(first: Type, rest: Fields)

  /** A dictionary is given by its entries in the order in which the container holds them. */
  datatype Val =
    | Num(n: int)
    | Str(bytes: Bytes)
    | Record(fields: seq<Val>)
    | List(elements: seq<Val>)
    | Dict(entries: seq<Entry>)

  datatype Entry = Entry(key: Val, value: Val)

  /** 2^31, the first size that does not fit in an int32. */
  const SIZE_LIMIT := 0x8000_0000

  // ----- numbers -----

  function Pow256(w: nat): (p: nat)
    ensures p >= 1
  {
    if w == 0 then 1 else 256 * Pow256(w - 1)
  }

  /** Little-endian. */
  function ToBytes(n: nat, w: nat): (r: Bytes)
    ensures |r| == w
  {
    if w == 0 then [] else [(n % 256) as Byte] + ToBytes(n / 256, w - 1)
  }

  function FromBytes(b: Bytes): (n: nat) {
    if b == [] then 0 else (b[0] as nat) + 256 * FromBytes(b[1..])
  }

  lemma {:induction false} BytesRoundTrip(n: nat, w: nat)
    requires n < Pow256(w)
    ensures FromBytes(ToBytes(n, w)) == n
  {
    if w > 0 {
      BytesRoundTrip(n / 256, w - 1);
      var r := ToBytes(n, w);
      assert r[1..] == ToBytes(n / 256, w - 1);
    }
  }

  lemma {:induction false} FromBytesBound(b: Bytes)
    ensures FromBytes(b) < Pow256(|b|)
  {
    if b != [] {
      FromBytesBound(b[1..]);
    }
  }

  /** One-byte values are unsigned, wider ones are in two's complement. */
  predicate InRange(n: int, w: nat) {
    if w <= 1 then 0 <= n < Pow256(w) else 0 <= 2 * n + Pow256(w) < 2 * Pow256(w)
  }

  function EncodeNum(n: int, w: nat): (r: Bytes)
    requires InRange(n, w)
    ensures |r| == w
  {
    ToBytes(if n < 0 then n + Pow256(w) else n, w)
  }

  function DecodeNum(b: Bytes): int {
    var u := FromBytes(b);
    if |b| > 1 && 2 * u >= Pow256(|b|) then u - Pow256(|b|) else u
  }

  lemma NumRoundTrip(n: int, w: nat)
    requires InRange(n, w)
    ensures DecodeNum(EncodeNum(n, w)) == n
  {
    BytesRoundTrip(if n < 0 then n + Pow256(w) else n, w);
  }

  lemma Int32Range(n: nat)
    requires n < SIZE_LIMIT
    ensures InRange(n, 4)
  {
    assert Pow256(1) == 256;
    assert Pow256(2) == 65536;
    assert Pow256(3) == 16777216;
    assert Pow256(4) == 4294967296;
  }

  /** writeSize. */
  function EncodeSize(n: nat): (r: Bytes)
    requires n < SIZE_LIMIT
    ensures |r| == if n > 254 then 5 else 1
  {
    if n > 254 then
      Int32Range(n);
      [255 as Byte] + EncodeNum(n, 4)
    else [n as Byte]
  }

  // ----- types -----

  predicate DistinctKeys(es: seq<Entry>) {
    forall i, j :: 0 <= i < j < |es| ==> es[i].key != es[j].key
  }

  /** The value belongs to the type, and its containers have sizes that fit in an int32. */
  predicate HasType(v: Val, t: Type)
    decreases t, 1, 0
  {
    match t
    case Fixed(w) => v.Num? && InRange(v.n, w)
    case Text => v.Str? && |v.bytes| < SIZE_LIMIT
    case Enum(min, max) => v.Num? && min <= v.n <= max && v.n < SIZE_LIMIT
    case Struct(fs) => v.Record? && HasFields(v.fields, fs)
    case Sequence(e) => v.List? && |v.elements| < SIZE_LIMIT && AllHaveType(v.elements, e)
    case Dictionary(_, _) =>
      v.Dict? && |v.entries| < SIZE_LIMIT && DistinctKeys(v.entries) && EntriesHaveType(v.entries, t)
  }

  predicate HasFields(vs: seq<Val>, fs: Fields)
    decreases fs, 0, 0
  {
    match fs
    case End => vs == []
    case Field(t, rest) => vs != [] && HasType(vs[0], t) && HasFields(vs[1..], rest)
  }

  predicate AllHaveType(vs: seq<Val>, t: Type)
    decreases t, 2, 0
  {
    forall i :: 0 <= i < |vs| ==> HasType(vs[i], t)
  }

  predicate EntriesHaveType(es: seq<Entry>, t: Type)
    decreases t, 0, 0
  {
    t.Dictionary? && forall i :: 0 <= i < |es| ==> HasType(es[i].key, t.key) && HasType(es[i].value, t.value)
  }

  /** minWireSize. */
  function MinWire(t: Type): nat {
    match t
    case Fixed(w) => w
    case Struct(fs) => MinWireFields(fs)
    case _ => 1
  }

  function MinWireFields(fs: Fields): nat {
    match fs
    case End => 0
    case Field(t, rest) => MinWire(t) + MinWireFields(rest)
  }

  /** fixedLength. */
  predicate FixedLength(t: Type) {
    match t
    case Fixed(_) => true
    case Struct(fs) => FixedFields(fs)
    case _ => false
  }

  predicate FixedFields(fs: Fields) {
    match fs
    case End => true
    case Field(t, rest) => FixedLength(t) && FixedFields(rest)
  }

  // ----- writing -----

  /** StreamHelper::write. */
  function Marshal(t: Type, v: Val): Bytes
    requires HasType(v, t)
    decreases t, 1, 0
  {
    match t
    case Fixed(w) => EncodeNum(v.n, w)
    case Text => EncodeSize(|v.bytes|) + v.bytes
    case Enum(_, _) => EncodeSize(v.n)
    case Struct(fs) => EncodeFields(fs, v.fields)
    case Sequence(e) => EncodeSize(|v.elements|) + EncodeAll(e, v.elements)
    case Dictionary(_, _) => EncodeSize(|v.entries|) + EncodeEntries(t, v.entries)
  }

  function EncodeFields(fs: Fields, vs: seq<Val>): Bytes
    requires HasFields(vs, fs)
    decreases fs, 0, 0
  {
    match fs
    case End => []
    case Field(t, rest) => Marshal(t, vs[0]) + EncodeFields(rest, vs[1..])
  }

  function EncodeAll(t: Type, vs: seq<Val>): Bytes
    requires AllHaveType(vs, t)
    decreases t, 2, |vs|
  {
    if vs == [] then [] else EncodeAll(t, vs[..|vs| - 1]) + Marshal(t, vs[|vs| - 1])
  }

  function EncodeEntries(t: Type, es: seq<Entry>): Bytes
    requires EntriesHaveType(es, t)
    decreases t, 0, |es| + 1
  {
    if es == [] then [] else EncodeEntries(t, es[..|es| - 1]) + EncodeEntry(t, es[|es| - 1])
  }

  function EncodeEntry(t: Type, e: Entry): Bytes
    requires t.Dictionary? && HasType(e.key, t.key) && HasType(e.value, t.value)
    decreases t, 0, 0
  {
    Marshal(t.key, e.key) + Marshal(t.value, e.value)
  }

  // ----- sizes -----

  /** A value takes at least minWireSize bytes, and exactly that many when its type has a fixed length. */
  lemma {:induction false} EncodedLength(t: Type, v: Val)
    requires HasType(v, t)
    ensures |Marshal(t, v)| >= MinWire(t)
    ensures FixedLength(t) ==> |Marshal(t, v)| == MinWire(t)
    decreases t
  {
    if t.Struct? {
      FieldsLength(t.fields, v.fields);
    }
  }

  lemma {:induction false} FieldsLength(fs: Fields, vs: seq<Val>)
    requires HasFields(vs, fs)
    ensures |EncodeFields(fs, vs)| >= MinWireFields(fs)
    ensures FixedFields(fs) ==> |EncodeFields(fs, vs)| == MinWireFields(fs)
    decreases fs
  {
    if fs.Field? {
      EncodedLength(fs.first, vs[0]);
      FieldsLength(fs.rest, vs[1..]);
    }
  }

  lemma {:induction false} AllLength(t: Type, vs: seq<Val>)
    requires AllHaveType(vs, t)
    ensures |EncodeAll(t, vs)| >= |vs| * MinWire(t)
    ensures FixedLength(t) ==> |EncodeAll(t, vs)| == |vs| * MinWire(t)
    decreases |vs|
  {
    if vs != [] {
      EncodedLength(t, vs[|vs| - 1]);
      AllLength(t, vs[..|vs| - 1]);
      assert |vs| * MinWire(t) == MinWire(t) + (|vs| - 1) * MinWire(t);
    }
  }

  lemma {:induction false} EntriesLength(t: Type, es: seq<Entry>)
    requires EntriesHaveType(es, t)
    ensures |EncodeEntries(t, es)| >= |es| * (MinWire(t.key) + MinWire(t.value))
    ensures FixedLength(t.key) && FixedLength(t.value) ==>
      |EncodeEntries(t, es)| == |es| * (MinWire(t.key) + MinWire(t.value))
    decreases |es|
  {
    if es != [] {
      EncodedLength(t.key, es[|es| - 1].key);
      EncodedLength(t.value, es[|es| - 1].value);
      EntriesLength(t, es[..|es| - 1]);
      var m := MinWire(t.key) + MinWire(t.value);
      assert |es| * m == m + (|es| - 1) * m;
    }
  }
}
