/** The output and input streams, which append to a buffer and advance a cursor. */
module SliceStreams {
  import opened Samples
  import opened Slice
  import opened SliceReading
  import opened SliceOptional

  lemma Assoc(x: Bytes, y: Bytes, z: Bytes)
    ensures x + y + z == x + (y + z)
  {
  }

  lemma AllSnoc(t: Type, vs: seq<Val>, k: nat)
    requires AllHaveType(vs, t) && k < |vs|
    ensures EncodeAll(t, vs[..k + 1]) == EncodeAll(t, vs[..k]) + Marshal(t, vs[k])
  {
    assert vs[..k + 1][..k] == vs[..k];
  }

  lemma EntriesSnoc(t: Type, es: seq<Entry>, k: nat)
    requires EntriesHaveType(es, t) && k < |es|
    ensures EncodeEntries(t, es[..k + 1]) == EncodeEntries(t, es[..k]) + EncodeEntry(t, es[k])
  {
    assert es[..k + 1][..k] == es[..k];
  }

  class OutputStream {
    var b: Bytes

    constructor ()
      ensures b == []
    {
      b := [];
    }

    /** Writes a number of `w` bytes. */
    method WriteNum(n: int, w: nat)
      requires InRange(n, w)
      modifies this
      ensures b == old(b) + EncodeNum(n, w)
    {
      var u: nat := if n < 0 then n + Pow256(w) else n;
      ghost var all := ToBytes(u, w);
      var k := 0;
      while k < w
        invariant 0 <= k <= w
        invariant b + ToBytes(u, w - k) == old(b) + all
      {
        ghost var was := b;
        b := b + [(u % 256) as Byte];
        assert was + ToBytes(u, w - k) == b + ToBytes(u / 256, w - k - 1);
        u := u / 256;
        k := k + 1;
      }
      assert b + [] == b;
    }

    method WriteSize(n: nat)
      requires n < SIZE_LIMIT
      modifies this
      ensures b == old(b) + EncodeSize(n)
    {
      if n > 254 {
        Int32Range(n);
        b := b + [255];
        WriteNum(n, 4);
        Assoc(old(b), [255], EncodeNum(n, 4));
      } else {
        b := b + [n as Byte];
      }
    }

    /** Leaves room for a four-byte size. */
    method StartSize() returns (position: nat)
      modifies this
      ensures position == |old(b)| && |b| == position + 4 && b[..position] == old(b)
    {
      position := |b|;
      Int32Range(0);
      WriteNum(0, 4);
    }

    /** Overwrites the four bytes at `position`, one by one, least significant first. */
    method Rewrite(n: nat, position: nat)
      requires InRange(n, 4) && position + 4 <= |b|
      modifies this
      ensures |b| == |old(b)| && b[..position] == old(b)[..position] && b[position + 4..] == old(b)[position + 4..]
      ensures b[position..position + 4] == EncodeNum(n, 4)
    {
      var u, k := n, 0;
      while k < 4
        invariant 0 <= k <= 4 && |b| == |old(b)|
        invariant b[..position] == old(b)[..position] && b[position + 4..] == old(b)[position + 4..]
        invariant b[position..position + k] + ToBytes(u, 4 - k) == EncodeNum(n, 4)
      {
        ghost var was := b;
        b := b[position + k := (u % 256) as Byte];
        assert b[position..position + k + 1] == was[position..position + k] + [(u % 256) as Byte];
        u := u / 256;
        k := k + 1;
      }
    }

    /** Patches the size at `position` with the number of bytes written since. */
    method EndSize(position: nat)
      requires position + 4 <= |b| && |b| - position - 4 < SIZE_LIMIT
      modifies this
      ensures InRange(|old(b)| - position - 4, 4)
      ensures b == old(b)[..position] + EncodeNum(|old(b)| - position - 4, 4) + old(b)[position + 4..]
    {
      Int32Range(|b| - position - 4);
      Rewrite(|b| - position - 4, position);
      assert b == b[..position] + b[position..position + 4] + b[position + 4..];
    }

    method Write(t: Type, v: Val)
      requires HasType(v, t)
      modifies this
      ensures b == old(b) + Marshal(t, v)
      decreases t, 1, 0
    {
      match t
      case Fixed(w) => WriteNum(v.n, w);
      case Text =>
        WriteSize(|v.bytes|);
        b := b + v.bytes;
        Assoc(old(b), EncodeSize(|v.bytes|), v.bytes);
      case Enum(_, _) => WriteSize(v.n);
      case Struct(fs) => WriteFields(fs, v.fields);
      case Sequence(_) => WriteSequence(t, v.elements);
      case Dictionary(_, _) => WriteDictionary(t, v.entries);
    }

    /** writeAll over the fields of a struct. */
    method WriteFields(fs: Fields, vs: seq<Val>)
      requires HasFields(vs, fs)
      modifies this
      ensures b == old(b) + EncodeFields(fs, vs)
      decreases fs, 0, 0
    {
      match fs
      case End =>
      case Field(t, rest) =>
        Write(t, vs[0]);
        WriteFields(rest, vs[1..]);
        Assoc(old(b), Marshal(t, vs[0]), EncodeFields(rest, vs[1..]));
    }

    method WriteSequence(t: Type, vs: seq<Val>)
      requires t.Sequence? && HasType(List(vs), t)
      modifies this
      ensures b == old(b) + Marshal(t, List(vs))
      decreases t, 0, 0
    {
      WriteSize(|vs|);
      WriteElements(t.element, vs);
      Assoc(old(b), EncodeSize(|vs|), EncodeAll(t.element, vs));
    }

    method WriteElements(t: Type, vs: seq<Val>)
      requires AllHaveType(vs, t)
      modifies this
      ensures b == old(b) + EncodeAll(t, vs)
      decreases t, 2, 0
    {
      var k := 0;
      while k < |vs|
        invariant 0 <= k <= |vs|
        invariant b == old(b) + EncodeAll(t, vs[..k])
      {
        Write(t, vs[k]);
        AllSnoc(t, vs, k);
        Assoc(old(b), EncodeAll(t, vs[..k]), Marshal(t, vs[k]));
        k := k + 1;
      }
      assert vs[..k] == vs;
    }

    method WriteDictionary(t: Type, es: seq<Entry>)
      requires t.Dictionary? && HasType(Dict(es), t)
      modifies this
      ensures b == old(b) + Marshal(t, Dict(es))
      decreases t, 0, 2
    {
      WriteSize(|es|);
      WriteEntries(t, es);
      Assoc(old(b), EncodeSize(|es|), EncodeEntries(t, es));
    }

    method WriteEntries(t: Type, es: seq<Entry>)
      requires EntriesHaveType(es, t)
      modifies this
      ensures b == old(b) + EncodeEntries(t, es)
      decreases t, 0, 1
    {
      var k := 0;
      while k < |es|
        invariant 0 <= k <= |es|
        invariant b == old(b) + EncodeEntries(t, es[..k])
      {
        WriteEntry(t, es[k]);
        EntriesSnoc(t, es, k);
        Assoc(old(b), EncodeEntries(t, es[..k]), EncodeEntry(t, es[k]));
        k := k + 1;
      }
      assert es[..k] == es;
    }

    method WriteEntry(t: Type, e: Entry)
      requires t.Dictionary? && HasType(e.key, t.key) && HasType(e.value, t.value)
      modifies this
      ensures b == old(b) + EncodeEntry(t, e)
      decreases t, 0, 0
    {
      Write(t.key, e.key);
      Write(t.value, e.value);
      Assoc(old(b), Marshal(t.key, e.key), Marshal(t.value, e.value));
    }

    /** StreamOptionalHelper::write: a size known beforehand is written first, any other is patched in afterwards. */
    method WriteOptional(t: Type, v: Val)
      requires HasType(v, t) && Fits(t, v)
      modifies this
      ensures b == old(b) + MarshalOptional(t, v)
    {
      if WrittenAsIs(t) {
        Write(t, v);
      } else if FormatOf(t).VSize? {
        WriteSize(Announced(t, v));
        Write(t, v);
        Assoc(old(b), EncodeSize(Announced(t, v)), Marshal(t, v));
      } else {
        WriteSized(t, v);
      }
    }

    method WriteSized(t: Type, v: Val)
      requires HasType(v, t) && |Marshal(t, v)| < SIZE_LIMIT
      modifies this
      ensures InRange(|Marshal(t, v)|, 4) && b == old(b) + (EncodeNum(|Marshal(t, v)|, 4) + Marshal(t, v))
    {
      var position := StartSize();
      Write(t, v);
      assert b[..position] == old(b) && b[position + 4..] == Marshal(t, v);
      EndSize(position);
      Assoc(old(b), EncodeNum(|Marshal(t, v)|, 4), Marshal(t, v));
    }

    /** writeOptImpl. */
    method WriteHeader(tag: nat, f: Format)
      requires tag < SIZE_LIMIT
      modifies this
      ensures b == old(b) + Header(tag, f)
    {
      if tag < 30 {
        b := b + [8 * tag + Code(f)];
      } else {
        b := b + [240 + Code(f)];
        WriteSize(tag);
        Assoc(old(b), [240 + Code(f)], EncodeSize(tag));
      }
    }

    /** An optional member: its header, then its value. */
    method WriteMember(m: Member)
      requires ValidMember(m)
      modifies this
      ensures b == old(b) + EncodeMember(m)
    {
      WriteHeader(m.tag, FormatOf(m.t));
      WriteOptional(m.t, m.v);
      Assoc(old(b), Header(m.tag, FormatOf(m.t)), MarshalOptional(m.t, m.v));
    }
  }

  /** The outcome of a method is that of the function: an exception for a failure, else the value and the new state. */
  predicate Matches<T(==)>(o: Option<T>, s: In, r: Read<T>) {
    match r
    case Failed => o.None?
    case Ok(v, s') => o == Some(v) && s == s'
  }

  lemma NextElement(t: Type, k: nat, s: In, vs: seq<Val>, s1: In)
    requires InBounds(s) && InBounds(s1) && DecodeAll(t, k, s) == Ok(vs, s1)
    ensures match Unmarshal(t, s1)
            case Failed => DecodeAll(t, k + 1, s) == Failed
            case Ok(v, s2) => DecodeAll(t, k + 1, s) == Ok(vs + [v], s2)
  {
  }

  lemma {:induction false} FailedElement(t: Type, k: nat, n: nat, s: In)
    requires InBounds(s) && k <= n && DecodeAll(t, k, s).Failed?
    ensures DecodeAll(t, n, s).Failed?
  {
    if k < n {
      FailedElement(t, k, n - 1, s);
    }
  }

  lemma {:induction false} FailedEntry(t: Type, k: nat, n: nat, s: In)
    requires InBounds(s) && t.Dictionary? && k <= n && DecodeEntries(t, k, s).Failed?
    ensures DecodeEntries(t, n, s).Failed?
  {
    if k < n {
      FailedEntry(t, k, n - 1, s);
    }
  }

  class InputStream {
    const b: Bytes
    var i: nat
    var startSeq: int
    var minSeqSize: int

    function State(): In
      reads this
    {
      In(b, i, startSeq, minSeqSize)
    }

    constructor (b: Bytes)
      ensures State() == In(b, 0, -1, 0)
    {
      this.b := b;
      i, startSeq, minSeqSize := 0, -1, 0;
    }

    method GetNum(w: nat) returns (o: Option<int>)
      requires InBounds(State())
      modifies `i
      ensures InBounds(State()) && Matches(o, State(), ReadNum(w, old(State())))
    {
      if |b| - i < w {
        return None;
      }
      o := Some(DecodeNum(b[i..i + w]));
      i := i + w;
    }

    method GetSize() returns (o: Option<int>)
      requires InBounds(State())
      modifies `i
      ensures InBounds(State()) && Matches(o, State(), ReadSize(old(State())))
    {
      if i == |b| {
        return None;
      }
      var first := b[i];
      i := i + 1;
      if first == 255 {
        o := GetNum(4);
        if o.Some? && o.value < 0 {
          o := None;
        }
      } else {
        o := Some(first);
      }
    }

    method GetSeqSize(min: nat) returns (o: Option<int>)
      requires InBounds(State())
      modifies this
      ensures InBounds(State()) && Matches(o, State(), ReadSeqSize(min, old(State())))
    {
      o := GetSize();
      if o.None? || o.value == 0 {
        return;
      }
      var need := o.value * min;
      if startSeq == -1 || i > startSeq + minSeqSize {
        startSeq := i;
      } else {
        need := need + minSeqSize;
      }
      if startSeq + need > |b| {
        return None;
      }
      minSeqSize := need;
    }

    method Get(t: Type) returns (o: Option<Val>)
      requires InBounds(State())
      modifies this
      ensures InBounds(State()) && Matches(o, State(), Unmarshal(t, old(State())))
      decreases t, 1, 0
    {
      match t
      case Fixed(w) =>
        var n := GetNum(w);
        return if n.None? then None else Some(Num(n.value));
      case Text =>
        o := GetText();
      case Enum(min, max) =>
        var n := GetSize();
        return if n.None? || !(min <= n.value <= max) then None else Some(Num(n.value));
      case Struct(fs) =>
        var vs := GetFields(fs);
        return if vs.None? then None else Some(Record(vs.value));
      case Sequence(_) =>
        o := GetSequence(t);
      case Dictionary(_, _) =>
        o := GetDictionary(t);
    }

    method GetText() returns (o: Option<Val>)
      requires InBounds(State())
      modifies this
      ensures InBounds(State()) && Matches(o, State(), Unmarshal(Text, old(State())))
    {
      var n := GetSize();
      if n.None? || |b| - i < n.value {
        return None;
      }
      o := Some(Str(b[i..i + n.value]));
      i := i + n.value;
    }

    method GetFields(fs: Fields) returns (o: Option<seq<Val>>)
      requires InBounds(State())
      modifies this
      ensures InBounds(State()) && Matches(o, State(), DecodeFields(fs, old(State())))
      decreases fs, 0, 0
    {
      match fs
      case End => return Some([]);
      case Field(t, rest) =>
        var v := Get(t);
        if v.None? {
          return None;
        }
        var vs := GetFields(rest);
        return if vs.None? then None else Some([v.value] + vs.value);
    }

    method GetSequence(t: Type) returns (o: Option<Val>)
      requires t.Sequence? && InBounds(State())
      modifies this
      ensures InBounds(State()) && Matches(o, State(), Unmarshal(t, old(State())))
      decreases t, 0, 0
    {
      ghost var s := State();
      assert Unmarshal(t, s) == DecodeSequence(t, s);
      var n := GetSeqSize(MinWire(t.element));
      if n.None? {
        return None;
      }
      ghost var s1 := State();
      assert ReadSeqSize(MinWire(t.element), s) == Ok(n.value, s1);
      var vs := GetElements(t.element, n.value);
      assert vs.Some? ==> DecodeAll(t.element, n.value, s1) == Ok(vs.value, State());
      return if vs.None? then None else Some(List(vs.value));
    }

    method GetElements(t: Type, n: nat) returns (o: Option<seq<Val>>)
      requires InBounds(State())
      modifies this
      ensures InBounds(State()) && Matches(o, State(), DecodeAll(t, n, old(State())))
      decreases t, 2, 0
    {
      ghost var s := State();
      o := Some([]);
      var k := 0;
      while k < n && o.Some?
        invariant InBounds(State()) && 0 <= k <= n
        invariant Matches(o, State(), DecodeAll(t, k, s))
      {
        NextElement(t, k, s, o.value, State());
        var v := Get(t);
        o := if v.Some? then Some(o.value + [v.value]) else None;
        k := k + 1;
      }
      if o.None? {
        FailedElement(t, k, n, s);
      }
    }

    method GetEntry(t: Type) returns (o: Option<Entry>)
      requires t.Dictionary? && InBounds(State())
      modifies this
      ensures InBounds(State()) && Matches(o, State(), DecodeEntry(t, old(State())))
      decreases t, 0, 0
    {
      var k := Get(t.key);
      if k.None? {
        return None;
      }
      var v := Get(t.value);
      return if v.None? then None else Some(Entry(k.value, v.value));
    }

    method GetDictionary(t: Type) returns (o: Option<Val>)
      requires t.Dictionary? && InBounds(State())
      modifies this
      ensures InBounds(State()) && Matches(o, State(), Unmarshal(t, old(State())))
      decreases t, 0, 2
    {
      ghost var s := State();
      assert Unmarshal(t, s) == DecodeDictionary(t, s);
      var n := GetSize();
      if n.None? {
        return None;
      }
      ghost var s1 := State();
      assert ReadSize(s) == Ok(n.value, s1);
      var es := GetEntries(t, n.value);
      assert es.Some? ==> DecodeEntries(t, n.value, s1) == Ok(es.value, State());
      return if es.None? then None else Some(Dict(es.value));
    }

    method GetEntries(t: Type, n: nat) returns (o: Option<seq<Entry>>)
      requires t.Dictionary? && InBounds(State())
      modifies this
      ensures InBounds(State()) && Matches(o, State(), DecodeEntries(t, n, old(State())))
      decreases t, 0, 1
    {
      ghost var s := State();
      var es := [];
      var k := 0;
      while k < n
        invariant 0 <= k <= n && InBounds(State())
        invariant DecodeEntries(t, k, s) == Ok(es, State())
      {
        var e := GetEntry(t);
        if e.None? {
          FailedEntry(t, k + 1, n, s);
          return None;
        }
        es := Insert(es, e.value);
        k := k + 1;
      }
      return Some(es);
    }

    method SkipBytes(n: nat) returns (o: Option<()>)
      requires InBounds(State())
      modifies `i
      ensures InBounds(State()) && Matches(o, State(), Skip(n, old(State())))
    {
      if n > |b| - i {
        return None;
      }
      i := i + n;
      return Some(());
    }

    method SkipSizeBytes() returns (o: Option<()>)
      requires InBounds(State())
      modifies `i
      ensures InBounds(State()) && Matches(o, State(), SkipSize(old(State())))
    {
      if i == |b| {
        return None;
      }
      var first := b[i];
      i := i + 1;
      if first == 255 {
        o := SkipBytes(4);
      } else {
        o := Some(());
      }
    }

    method SkipFormat(f: Format) returns (o: Option<()>)
      requires InBounds(State())
      modifies `i
      ensures InBounds(State()) && Matches(o, State(), SkipOptional(f, old(State())))
    {
      match f
      case F1 => o := SkipBytes(1);
      case F2 => o := SkipBytes(2);
      case F4 => o := SkipBytes(4);
      case F8 => o := SkipBytes(8);
      case Size => o := SkipSizeBytes();
      case VSize =>
        var n := GetSize();
        if n.None? {
          return None;
        }
        o := SkipBytes(n.value);
      case FSize =>
        var n := GetNum(4);
        if n.None? || n.value < 0 {
          return None;
        }
        o := SkipBytes(n.value);
      case Class => o := None;
    }

    /** The header of an optional member. */
    method GetTag() returns (o: Option<TagHeader>)
      requires InBounds(State())
      modifies `i
      ensures InBounds(State()) && Matches(o, State(), ReadTag(old(State())))
    {
      if i == |b| {
        return None;
      }
      var first := b[i];
      i := i + 1;
      var format, tag := FormatFor(first % 8), first / 8;
      if tag > 30 {
        return None;
      }
      if tag == 30 {
        var n := GetSize();
        if n.None? {
          return None;
        }
        tag := n.value;
      }
      return Some(TagHeader(tag, format));
    }

    /** readOptImpl. */
    method ReadOpt(tag: nat, f: Format, end: nat) returns (o: Option<bool>)
      requires InBounds(State())
      modifies `i
      ensures InBounds(State()) && Matches(o, State(), Find(tag, f, old(State()), end))
    {
      while i < end && !(i < |b| && b[i] == END_MARKER)
        invariant InBounds(State())
        invariant Find(tag, f, State(), end) == Find(tag, f, old(State()), end)
        decreases |b| - i
      {
        var h := GetTag();
        if h.None? {
          return None;
        }
        if h.value.tag > tag {
          i := i - Rewind(h.value.tag);
          return Some(false);
        }
        if h.value.tag == tag {
          return if h.value.format == f then Some(true) else None;
        }
        var skipped := SkipFormat(h.value.format);
        if skipped.None? {
          return None;
        }
      }
      return Some(false);
    }
  }
}
