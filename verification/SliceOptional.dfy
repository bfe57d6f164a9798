/** Optional values: their size prefixes, how a receiver skips the ones it does not know, and tagged members. */
module SliceOptional {
  import opened Samples
  import opened Slice
  import opened SliceReading

  datatype Format = F1 | F2 | F4 | F8 | Size | VSize | FSize | Class

  // ----- one optional value -----

  /** The number of elements of a container value. */
  function Count(v: Val): nat {
    if v.List? then |v.elements| else if v.Dict? then |v.entries| else 0
  }

  /** The least number of bytes of one element of a container type. */
  function ElementSize(t: Type): nat {
    if t.Sequence? then MinWire(t.element) else if t.Dictionary? then MinWire(t.key) + MinWire(t.value) else 0
  }

  predicate FixedElements(t: Type) {
    (t.Sequence? && FixedLength(t.element)) || (t.Dictionary? && FixedLength(t.key) && FixedLength(t.value))
  }

  /** The types with an optional format: the built-in widths, and everything else. */
  predicate Supported(t: Type) {
    t.Fixed? ==> t.width in {1, 2, 4, 8}
  }

  /** optionalFormat. */
  function FormatOf(t: Type): Format {
    match t
    case Fixed(w) => if w == 1 then F1 else if w == 2 then F2 else if w == 4 then F4 else F8
    case Text => VSize
    case Enum(_, _) => Size
    case Struct(_) => if FixedLength(t) then VSize else FSize
    case _ => if FixedElements(t) then VSize else FSize
  }

  /** The value is written without a further prefix: its own encoding can be skipped. */
  predicate WrittenAsIs(t: Type) {
    match t
    case Struct(_) => false
    case Sequence(_) => FixedElements(t) && ElementSize(t) == 1
    case Dictionary(_, _) => FixedElements(t) && ElementSize(t) == 1
    case _ => true
  }

  /** The size a VSize prefix announces: computed from the type and the number of elements, before writing. */
  function Announced(t: Type, v: Val): nat {
    if t.Struct? then MinWire(t) else Count(v) * ElementSize(t) + (if Count(v) < 255 then 1 else 5)
  }

  /** The size prefix, if there is one, fits in an int32. */
  predicate Fits(t: Type, v: Val)
    requires HasType(v, t)
  {
    WrittenAsIs(t) || (if FormatOf(t).VSize? then Announced(t, v) < SIZE_LIMIT else |Marshal(t, v)| < SIZE_LIMIT)
  }

  /** StreamOptionalHelper::write. */
  function MarshalOptional(t: Type, v: Val): Bytes
    requires HasType(v, t) && Fits(t, v)
  {
    if WrittenAsIs(t) then Marshal(t, v)
    else if FormatOf(t).VSize? then EncodeSize(Announced(t, v)) + Marshal(t, v)
    else
      Int32Range(|Marshal(t, v)|);
      EncodeNum(|Marshal(t, v)|, 4) + Marshal(t, v)
  }

  function Skip(n: nat, s: In): (r: Read<()>)
    requires InBounds(s)
    ensures r.Ok? ==> Advanced(s, r.rest)
  {
    if s.i + n > |s.b| then Failed else Ok((), s.(i := s.i + n))
  }

  function SkipSize(s: In): (r: Read<()>)
    requires InBounds(s)
    ensures r.Ok? ==> Advanced(s, r.rest)
  {
    match Take(s, 1)
    case Failed => Failed
    case Ok(b, s1) => if b[0] == 255 then Skip(4, s1) else Ok((), s1)
  }

  /** StreamOptionalHelper::read. */
  function UnmarshalOptional(t: Type, s: In): (r: Read<Val>)
    requires InBounds(s)
    ensures r.Ok? ==> Advanced(s, r.rest)
  {
    if WrittenAsIs(t) then Unmarshal(t, s)
    else
      match (if FormatOf(t).VSize? then SkipSize(s) else Skip(4, s))
      case Failed => Failed
      case Ok(_, s1) => Unmarshal(t, s1)
  }

  /** skipOptional: optional classes cannot be skipped. */
  function SkipOptional(f: Format, s: In): (r: Read<()>)
    requires InBounds(s)
    ensures r.Ok? ==> Advanced(s, r.rest)
  {
    match f
    case F1 => Skip(1, s)
    case F2 => Skip(2, s)
    case F4 => Skip(4, s)
    case F8 => Skip(8, s)
    case Size => SkipSize(s)
    case VSize =>
      (match ReadSize(s)
       case Failed => Failed
       case Ok(n, s1) => Skip(n, s1))
    case FSize =>
      (match ReadNum(4, s)
       case Failed => Failed
       case Ok(n, s1) => if n < 0 then Failed else Skip(n, s1))
    case Class => Failed
  }

  /** The elements of a container, without their number. */
  function Elements(t: Type, v: Val): Bytes
    requires HasType(v, t) && (t.Sequence? || t.Dictionary?)
  {
    if t.Sequence? then EncodeAll(t.element, v.elements) else EncodeEntries(t, v.entries)
  }

  lemma ElementsLength(t: Type, v: Val)
    requires HasType(v, t) && FixedElements(t)
    ensures |Elements(t, v)| == Count(v) * ElementSize(t)
  {
    if t.Sequence? {
      AllLength(t.element, v.elements);
    } else {
      EntriesLength(t, v.entries);
    }
  }

  lemma ContainerBytes(t: Type, v: Val)
    requires HasType(v, t) && (t.Sequence? || t.Dictionary?)
    ensures Count(v) < SIZE_LIMIT && Marshal(t, v) == EncodeSize(Count(v)) + Elements(t, v)
  {
  }

  /** The announced size is the number of bytes that follow. */
  lemma AnnouncedIsExact(t: Type, v: Val)
    requires HasType(v, t) && FormatOf(t).VSize? && !WrittenAsIs(t)
    ensures |Marshal(t, v)| == Announced(t, v)
  {
    if t.Struct? {
      EncodedLength(t, v);
    } else {
      ContainerBytes(t, v);
      ElementsLength(t, v);
    }
  }

  /** The size prefix of every variable-size optional is the exact number of bytes after it, also where the value's own
      size serves as the prefix. */
  lemma PrefixIsExact(t: Type, v: Val) returns (body: Bytes)
    requires HasType(v, t) && Fits(t, v) && FormatOf(t) in {VSize, FSize}
    ensures |body| < SIZE_LIMIT && InRange(|body|, 4)
    ensures MarshalOptional(t, v) == (if FormatOf(t).VSize? then EncodeSize(|body|) else EncodeNum(|body|, 4)) + body
  {
    if !WrittenAsIs(t) {
      body := Marshal(t, v);
      if FormatOf(t).VSize? {
        AnnouncedIsExact(t, v);
      }
    } else if t.Text? {
      body := v.bytes;
    } else {
      body := Elements(t, v);
      ContainerBytes(t, v);
      ElementsLength(t, v);
      assert ElementSize(t) == 1;
    }
    Int32Range(|body|);
  }

  lemma SkipAt(s: In, b: Bytes, c: nat)
    requires At(s, b, c)
    ensures InBounds(s) && Skip(|b|, s) == Ok((), s.(i := s.i + |b|))
  {
  }

  lemma SkipSizeAt(s: In, n: nat, c: nat)
    requires n < SIZE_LIMIT && At(s, EncodeSize(n), c)
    ensures InBounds(s) && SkipSize(s) == Ok((), s.(i := s.i + |EncodeSize(n)|))
  {
    assert s.b[s.i] == EncodeSize(n)[0] by {
      assert s.b[s.i..s.i + |EncodeSize(n)|][0] == s.b[s.i];
    }
  }

  lemma SkipVSizeAt(s: In, body: Bytes, c: nat)
    requires |body| < SIZE_LIMIT && At(s, EncodeSize(|body|) + body, c)
    ensures InBounds(s) && SkipOptional(VSize, s) == Ok((), s.(i := s.i + |EncodeSize(|body|) + body|))
  {
    var size := EncodeSize(|body|);
    var s1 := s.(i := s.i + |size|);
    AtSplit(s, size, body, c);
    assert PastBytes(s, s1, |size|);
    SizeAt(s, |body|, |body| + c);
    SkipAt(s1, body, c);
  }

  lemma SkipFSizeAt(s: In, body: Bytes, c: nat)
    requires InRange(|body|, 4) && At(s, EncodeNum(|body|, 4) + body, c)
    ensures InBounds(s) && SkipOptional(FSize, s) == Ok((), s.(i := s.i + |EncodeNum(|body|, 4) + body|))
  {
    var size := EncodeNum(|body|, 4);
    var s1 := s.(i := s.i + |size|);
    AtSplit(s, size, body, c);
    assert PastBytes(s, s1, |size|);
    NumAt(s, |body|, 4, |body| + c);
    SkipAt(s1, body, c);
  }

  /** A receiver that does not know an optional lands right after it. */
  lemma SkippingIsExact(t: Type, v: Val, s: In, c: nat)
    requires HasType(v, t) && Supported(t) && Fits(t, v) && At(s, MarshalOptional(t, v), c)
    ensures InBounds(s) && SkipOptional(FormatOf(t), s) == Ok((), s.(i := s.i + |MarshalOptional(t, v)|))
  {
    if FormatOf(t) in {VSize, FSize} {
      var body := PrefixIsExact(t, v);
      if FormatOf(t).VSize? {
        SkipVSizeAt(s, body, c);
      } else {
        SkipFSizeAt(s, body, c);
      }
    } else if t.Enum? {
      SkipSizeAt(s, v.n, c);
    } else {
      SkipAt(s, MarshalOptional(t, v), c);
    }
  }

  lemma PrefixedRoundTrip(t: Type, v: Val, s: In, prefix: Bytes, c: nat)
    requires HasType(v, t) && !WrittenAsIs(t) && At(s, prefix + Marshal(t, v), c) && ExpectsAtMost(s, s.i + c)
    requires At(s, prefix, 0) ==>
      (if FormatOf(t).VSize? then SkipSize(s) else Skip(4, s)) == Ok((), s.(i := s.i + |prefix|))
    ensures InBounds(s) && ReadsAs(UnmarshalOptional(t, s), v, s, |prefix + Marshal(t, v)|, c)
  {
    AtSplit(s, prefix, Marshal(t, v), c);
    var s1 := s.(i := s.i + |prefix|);
    assert PastBytes(s, s1, |prefix|);
    RoundTrip(t, v, s1, c);
  }

  /** A receiver that knows the optional gets the value back, and lands at the same place. */
  lemma OptionalRoundTrip(t: Type, v: Val, s: In, c: nat)
    requires HasType(v, t) && Fits(t, v) && At(s, MarshalOptional(t, v), c) && ExpectsAtMost(s, s.i + c)
    ensures InBounds(s) && ReadsAs(UnmarshalOptional(t, s), v, s, |MarshalOptional(t, v)|, c)
  {
    if WrittenAsIs(t) {
      RoundTrip(t, v, s, c);
    } else if FormatOf(t).VSize? {
      var n := Announced(t, v);
      if At(s, EncodeSize(n), 0) {
        SkipSizeAt(s, n, 0);
      }
      PrefixedRoundTrip(t, v, s, EncodeSize(n), c);
    } else {
      var n := |Marshal(t, v)|;
      Int32Range(n);
      if At(s, EncodeNum(n, 4), 0) {
        SkipAt(s, EncodeNum(n, 4), 0);
      }
      PrefixedRoundTrip(t, v, s, EncodeNum(n, 4), c);
    }
  }

  // ----- tagged members -----

  const END_MARKER := 255

  function Code(f: Format): Byte {
    match f
    case F1 => 0
    case F2 => 1
    case F4 => 2
    case F8 => 3
    case Size => 4
    case VSize => 5
    case FSize => 6
    case Class => 7
  }

  function FormatFor(code: Byte): Format
    requires code < 8
  {
    match code
    case 0 => F1
    case 1 => F2
    case 2 => F4
    case 3 => F8
    case 4 => Size
    case 5 => VSize
    case 6 => FSize
    case _ => Class
  }

  /** writeOptImpl: small tags share a byte with the format. */
  function Header(tag: nat, f: Format): Bytes
    requires tag < SIZE_LIMIT
  {
    if tag < 30 then [8 * tag + Code(f)] else [240 + Code(f)] + EncodeSize(tag)
  }

  datatype TagHeader = TagHeader(tag: nat, format: Format)

  /** How far the stream goes back over the header of a member that is not the one asked for. */
  function Rewind(tag: nat): nat {
    if tag < 30 then 1 else if tag < 255 then 2 else 6
  }

  /** The tag and format at the stream's position. Tags above 29 are encoded as a size. */
  function ReadTag(s: In): (r: Read<TagHeader>)
    requires InBounds(s)
    ensures r.Ok? ==> Advanced(s, r.rest) && r.rest.i >= s.i + Rewind(r.value.tag)
  {
    match Take(s, 1)
    case Failed => Failed
    case Ok(b, s1) =>
      var f := FormatFor(b[0] % 8);
      if b[0] / 8 > 30 then Failed
      else if b[0] / 8 < 30 then Ok(TagHeader(b[0] / 8, f), s1)
      else
        match ReadSize(s1)
        case Failed => Failed
        case Ok(n, s2) => Ok(TagHeader(n, f), s2)
  }

  /** readOptImpl: looks for a tag among the members up to `end`, skipping those with smaller tags. */
  function Find(tag: nat, f: Format, s: In, end: nat): (r: Read<bool>)
    requires InBounds(s)
    ensures r.Ok? ==> r.rest.b == s.b && InBounds(r.rest)
    decreases |s.b| - s.i
  {
    if s.i >= end then Ok(false, s)
    else if s.i < |s.b| && s.b[s.i] == END_MARKER then Ok(false, s)
    else
      match ReadTag(s)
      case Failed => Failed
      case Ok(h, s1) =>
        if h.tag > tag then Ok(false, s1.(i := s1.i - Rewind(h.tag)))
        else if h.tag == tag then if h.format == f then Ok(true, s1) else Failed
        else
          match SkipOptional(h.format, s1)
          case Failed => Failed
          case Ok(_, s2) => Find(tag, f, s2, end)
  }

  /** Reading one optional member. */
  function ReadMember(tag: nat, t: Type, s: In, end: nat): (r: Read<Option<Val>>)
    requires InBounds(s)
    ensures r.Ok? ==> r.rest.b == s.b && InBounds(r.rest)
  {
    match Find(tag, FormatOf(t), s, end)
    case Failed => Failed
    case Ok(false, s1) => Ok(None, s1)
    case Ok(true, s1) =>
      match UnmarshalOptional(t, s1)
      case Failed => Failed
      case Ok(v, s2) => Ok(Some(v), s2)
  }

  datatype Member = Member(tag: nat, t: Type, v: Val)

  predicate ValidMember(m: Member) {
    m.tag < SIZE_LIMIT && Supported(m.t) && HasType(m.v, m.t) && Fits(m.t, m.v)
  }

  /** Members are written in the order of their tags. */
  predicate ValidMembers(ms: seq<Member>) {
    && (forall i :: 0 <= i < |ms| ==> ValidMember(ms[i]))
    && (forall i, j :: 0 <= i < j < |ms| ==> ms[i].tag < ms[j].tag)
  }

  function EncodeMember(m: Member): Bytes
    requires ValidMember(m)
  {
    Header(m.tag, FormatOf(m.t)) + MarshalOptional(m.t, m.v)
  }

  function EncodeMembers(ms: seq<Member>): Bytes
    requires ValidMembers(ms)
  {
    if ms == [] then [] else EncodeMember(ms[0]) + EncodeMembers(ms[1..])
  }

  /** The members start at the stream's position; where they stop, the encapsulation ends or the end marker follows. */
  predicate AtMembers(s: In, ms: seq<Member>, end: nat)
    requires ValidMembers(ms)
  {
    var stop := s.i + |EncodeMembers(ms)|;
    && At(s, EncodeMembers(ms), 0)
    && stop <= end
    && (stop == end || (stop < |s.b| && s.b[stop] == END_MARKER))
    && ExpectsAtMost(s, s.i)
  }

  function Lookup(ms: seq<Member>, tag: nat): Option<Val> {
    if ms == [] then None else if ms[0].tag == tag then Some(ms[0].v) else Lookup(ms[1..], tag)
  }

  /** The members after the given tag. */
  function Beyond(ms: seq<Member>, tag: nat): (r: seq<Member>)
    ensures ValidMembers(ms) ==> ValidMembers(r)
  {
    if ms == [] || ms[0].tag > tag then ms else Beyond(ms[1..], tag)
  }

  lemma CodeRoundTrip(f: Format)
    ensures FormatFor(Code(f)) == f
  {
  }

  /** A written header is read back, and the rewind is its length. It is never taken for the end marker. */
  lemma HeaderAt(tag: nat, f: Format, s: In, c: nat)
    requires tag < SIZE_LIMIT && !f.Class? && At(s, Header(tag, f), c)
    ensures InBounds(s) && s.i < |s.b| && s.b[s.i] != END_MARKER
    ensures ReadTag(s) == Ok(TagHeader(tag, f), s.(i := s.i + |Header(tag, f)|))
    ensures |Header(tag, f)| == Rewind(tag)
  {
    CodeRoundTrip(f);
    var h := Header(tag, f);
    assert s.b[s.i..s.i + |h|][0] == s.b[s.i];
    assert s.b[s.i] == h[0];
    if tag >= 30 {
      AtSplit(s, [240 + Code(f)], EncodeSize(tag), c);
      var s1 := s.(i := s.i + 1);
      assert PastBytes(s, s1, 1);
      SizeAt(s1, tag, c);
    }
  }

  /** Taking the first member apart. */
  lemma AtFirst(ms: seq<Member>, s: In, end: nat)
    requires ms != [] && ValidMembers(ms) && AtMembers(s, ms, end)
    ensures var h := Header(ms[0].tag, FormatOf(ms[0].t));
      var s1 := s.(i := s.i + |h|);
      && s.i < end
      && At(s, h, 0)
      && At(s1, MarshalOptional(ms[0].t, ms[0].v), |EncodeMembers(ms[1..])|)
      && ExpectsAtMost(s1, s1.i)
  {
    var h, v, rest := Header(ms[0].tag, FormatOf(ms[0].t)), MarshalOptional(ms[0].t, ms[0].v), EncodeMembers(ms[1..]);
    assert EncodeMembers(ms) == (h + v) + rest;
    AtSplit(s, h + v, rest, 0);
    AtSplit(s, h, v, |rest|);
    assert PastBytes(s, s.(i := s.i + |h|), |h|);
  }

  lemma RestIsValid(ms: seq<Member>)
    requires ms != [] && ValidMembers(ms)
    ensures ValidMembers(ms[1..])
  {
    assert forall i :: 0 <= i < |ms[1..]| ==> ms[1..][i] == ms[i + 1];
  }

  /** What is left after the first member. */
  lemma AfterFirst(ms: seq<Member>, s: In, s': In, end: nat)
    requires ms != [] && ValidMembers(ms) && AtMembers(s, ms, end)
    requires PastBytes(s, s', |EncodeMember(ms[0])|) && ExpectsAtMost(s', s'.i)
    ensures ValidMembers(ms[1..]) && AtMembers(s', ms[1..], end)
  {
    RestIsValid(ms);
    var first, rest := EncodeMember(ms[0]), EncodeMembers(ms[1..]);
    assert EncodeMembers(ms) == first + rest;
    AtSplit(s, first, rest, 0);
    assert At(s', rest, 0);
  }

  lemma {:induction false} NoneAbove(ms: seq<Member>, tag: nat)
    requires forall i :: 0 <= i < |ms| ==> ms[i].tag > tag
    ensures Lookup(ms, tag) == None && Beyond(ms, tag) == ms
  {
    if ms != [] {
      NoneAbove(ms[1..], tag);
    }
  }

  predicate Agrees(ms: seq<Member>, tag: nat, t: Type) {
    forall i :: 0 <= i < |ms| && ms[i].tag == tag ==> ms[i].t == t
  }

  /** The stream after the header of the first member. */
  function PastHeader(m: Member, s: In): In {
    s.(i := s.i + Rewind(m.tag))
  }

  lemma FirstHeader(ms: seq<Member>, s: In, end: nat)
    requires ms != [] && ValidMembers(ms) && AtMembers(s, ms, end)
    ensures InBounds(s) && s.i < end && s.i < |s.b| && s.b[s.i] != END_MARKER
    ensures ReadTag(s) == Ok(TagHeader(ms[0].tag, FormatOf(ms[0].t)), PastHeader(ms[0], s))
  {
    AtFirst(ms, s, end);
    HeaderAt(ms[0].tag, FormatOf(ms[0].t), s, 0);
  }

  lemma HeaderLength(tag: nat, f: Format)
    requires tag < SIZE_LIMIT
    ensures |Header(tag, f)| == Rewind(tag)
  {
  }

  lemma FirstValue(ms: seq<Member>, s: In, end: nat)
    requires ms != [] && ValidMembers(ms) && AtMembers(s, ms, end)
    ensures var m, s1 := ms[0], PastHeader(ms[0], s);
      && At(s1, MarshalOptional(m.t, m.v), |EncodeMembers(ms[1..])|) && ExpectsAtMost(s1, s1.i)
      && |EncodeMember(m)| == Rewind(m.tag) + |MarshalOptional(m.t, m.v)|
  {
    HeaderLength(ms[0].tag, FormatOf(ms[0].t));
    AtFirst(ms, s, end);
    assert PastHeader(ms[0], s) == s.(i := s.i + |Header(ms[0].tag, FormatOf(ms[0].t))|);
  }

  /** The first member can be read... */
  lemma FirstIsReadable(ms: seq<Member>, s: In, end: nat)
    requires ms != [] && ValidMembers(ms) && AtMembers(s, ms, end)
    ensures var s1 := PastHeader(ms[0], s);
      && InBounds(s1)
      && var r := UnmarshalOptional(ms[0].t, s1);
        r.Ok? && r.value == ms[0].v && PastBytes(s, r.rest, |EncodeMember(ms[0])|) && ExpectsAtMost(r.rest, r.rest.i)
  {
    FirstValue(ms, s, end);
    OptionalRoundTrip(ms[0].t, ms[0].v, PastHeader(ms[0], s), 0);
  }

  /** ... and skipped. */
  lemma FirstIsSkippable(ms: seq<Member>, s: In, end: nat)
    requires ms != [] && ValidMembers(ms) && AtMembers(s, ms, end)
    ensures var s1 := PastHeader(ms[0], s);
      && InBounds(s1)
      && SkipOptional(FormatOf(ms[0].t), s1) == Ok((), s.(i := s.i + |EncodeMember(ms[0])|))
  {
    FirstValue(ms, s, end);
    SkippingIsExact(ms[0].t, ms[0].v, PastHeader(ms[0], s), |EncodeMembers(ms[1..])|);
  }

  /** One turn of the search. */
  lemma FindStep(tag: nat, f: Format, s: In, end: nat, h: TagHeader, s1: In)
    requires InBounds(s) && s.i < end && s.i < |s.b| && s.b[s.i] != END_MARKER && ReadTag(s) == Ok(h, s1)
    ensures h.tag > tag && s1 == s.(i := s.i + Rewind(h.tag)) ==> Find(tag, f, s, end) == Ok(false, s)
    ensures h == TagHeader(tag, f) ==> Find(tag, f, s, end) == Ok(true, s1)
    ensures h.tag < tag && SkipOptional(h.format, s1).Ok? ==>
      Find(tag, f, s, end) == Find(tag, f, SkipOptional(h.format, s1).rest, end)
  {
  }

  /** The first member has the tag: it is read. */
  lemma FirstIsRead(ms: seq<Member>, s: In, end: nat)
    requires ms != [] && ValidMembers(ms) && AtMembers(s, ms, end)
    ensures InBounds(s)
    ensures var r := ReadMember(ms[0].tag, ms[0].t, s, end);
      r.Ok? && r.value == Some(ms[0].v) && ValidMembers(ms[1..]) && AtMembers(r.rest, ms[1..], end)
  {
    FirstHeader(ms, s, end);
    FirstIsReadable(ms, s, end);
    var m, s1 := ms[0], PastHeader(ms[0], s);
    FindStep(m.tag, FormatOf(m.t), s, end, TagHeader(m.tag, FormatOf(m.t)), s1);
    AfterFirst(ms, s, UnmarshalOptional(m.t, s1).rest, end);
  }

  /** The first member has a smaller tag: it is skipped, whether or not the receiver knows it. */
  lemma FirstIsSkipped(ms: seq<Member>, tag: nat, f: Format, s: In, end: nat) returns (s2: In)
    requires ms != [] && ValidMembers(ms) && AtMembers(s, ms, end) && ms[0].tag < tag
    ensures InBounds(s) && InBounds(s2) && Find(tag, f, s, end) == Find(tag, f, s2, end)
    ensures ValidMembers(ms[1..]) && AtMembers(s2, ms[1..], end)
  {
    FirstHeader(ms, s, end);
    FirstIsSkippable(ms, s, end);
    FindStep(tag, f, s, end, TagHeader(ms[0].tag, FormatOf(ms[0].t)), PastHeader(ms[0], s));
    s2 := s.(i := s.i + |EncodeMember(ms[0])|);
    AfterFirst(ms, s, s2, end);
  }

  /** The first member has a greater tag: the stream stays at its header. */
  lemma FirstIsLeft(ms: seq<Member>, tag: nat, f: Format, s: In, end: nat)
    requires ms != [] && ValidMembers(ms) && AtMembers(s, ms, end) && ms[0].tag > tag
    ensures InBounds(s) && Find(tag, f, s, end) == Ok(false, s)
  {
    FirstHeader(ms, s, end);
    FindStep(tag, f, s, end, TagHeader(ms[0].tag, FormatOf(ms[0].t)), PastHeader(ms[0], s));
  }

  /** The answer to a read of `tag` is the member with that tag, or none, with the stream at the first greater tag. */
  predicate Answers(r: Read<Option<Val>>, ms: seq<Member>, tag: nat, end: nat)
    requires ValidMembers(ms)
  {
    r.Ok? && r.value == Lookup(ms, tag) && AtMembers(r.rest, Beyond(ms, tag), end)
  }

  lemma AnswerIfFirst(ms: seq<Member>, s: In, end: nat)
    requires ms != [] && ValidMembers(ms) && AtMembers(s, ms, end)
    ensures InBounds(s) && Answers(ReadMember(ms[0].tag, ms[0].t, s, end), ms, ms[0].tag, end)
  {
    FirstIsRead(ms, s, end);
    NoneAbove(ms[1..], ms[0].tag);
  }

  lemma AnswerIfPast(ms: seq<Member>, tag: nat, t: Type, s: In, end: nat)
    requires ms != [] && ValidMembers(ms) && AtMembers(s, ms, end) && ms[0].tag > tag
    ensures InBounds(s) && Answers(ReadMember(tag, t, s, end), ms, tag, end)
  {
    FirstIsLeft(ms, tag, FormatOf(t), s, end);
    NoneAbove(ms, tag);
  }

  lemma SkipKeepsAnswer(ms: seq<Member>, tag: nat, t: Type, end: nat, r: Read<Option<Val>>)
    requires ms != [] && ValidMembers(ms) && ms[0].tag < tag && Agrees(ms, tag, t)
    ensures ValidMembers(ms[1..]) && Agrees(ms[1..], tag, t)
    ensures Answers(r, ms[1..], tag, end) ==> Answers(r, ms, tag, end)
  {
  }

  lemma AnswerIfNone(tag: nat, t: Type, s: In, end: nat)
    requires AtMembers(s, [], end)
    ensures InBounds(s) && Answers(ReadMember(tag, t, s, end), [], tag, end)
  {
    assert Find(tag, FormatOf(t), s, end) == Ok(false, s);
  }

  lemma ReadAfterFirst(ms: seq<Member>, tag: nat, t: Type, s: In, end: nat) returns (s2: In)
    requires ms != [] && ValidMembers(ms) && AtMembers(s, ms, end) && ms[0].tag < tag
    ensures InBounds(s) && InBounds(s2) && ReadMember(tag, t, s, end) == ReadMember(tag, t, s2, end)
    ensures ValidMembers(ms[1..]) && AtMembers(s2, ms[1..], end)
  {
    s2 := FirstIsSkipped(ms, tag, FormatOf(t), s, end);
  }

  /** Reading a tag returns the member with that tag, or none, and stops at the first member with a greater tag. */
  lemma {:induction false} ReadMemberIsLookup(ms: seq<Member>, tag: nat, t: Type, s: In, end: nat)
    requires ValidMembers(ms) && AtMembers(s, ms, end) && Agrees(ms, tag, t)
    ensures InBounds(s) && Answers(ReadMember(tag, t, s, end), ms, tag, end)
    decreases |ms|
  {
    if ms == [] {
      AnswerIfNone(tag, t, s, end);
    } else if ms[0].tag == tag {
      assert ms[0].t == t;
      AnswerIfFirst(ms, s, end);
    } else if ms[0].tag > tag {
      AnswerIfPast(ms, tag, t, s, end);
    } else {
      var s2 := ReadAfterFirst(ms, tag, t, s, end);
      SkipKeepsAnswer(ms, tag, t, end, ReadMember(tag, t, s2, end));
      ReadMemberIsLookup(ms[1..], tag, t, s2, end);
    }
  }

  // ----- a receiver with its own idea of the members -----

  datatype Known = Known(tag: nat, t: Type)

  /** Reads the members the receiver knows, in the order of their tags. */
  function ReadKnown(ks: seq<Known>, s: In, end: nat): (r: Read<seq<Option<Val>>>)
    requires InBounds(s)
  {
    if ks == [] then Ok([], s)
    else
      match ReadMember(ks[0].tag, ks[0].t, s, end)
      case Failed => Failed
      case Ok(v, s1) =>
        match ReadKnown(ks[1..], s1, end)
        case Failed => Failed
        case Ok(vs, s2) => Ok([v] + vs, s2)
  }

  predicate Increasing(ks: seq<Known>) {
    forall i, j :: 0 <= i < j < |ks| ==> ks[i].tag < ks[j].tag
  }

  lemma {:induction false} BeyondKeeps(ms: seq<Member>, tag: nat, other: nat)
    requires ValidMembers(ms) && other > tag
    ensures Lookup(Beyond(ms, tag), other) == Lookup(ms, other)
    ensures forall t :: Agrees(ms, other, t) ==> Agrees(Beyond(ms, tag), other, t)
  {
    if ms != [] && ms[0].tag <= tag {
      BeyondKeeps(ms[1..], tag, other);
      assert forall t :: Agrees(ms, other, t) ==> Agrees(ms[1..], other, t);
    }
  }

  /** Forward and backward compatibility: whatever members were written and whatever members the receiver knows, as long
      as they agree on the types of the tags they share, the receiver gets exactly the written value of each member it
      knows, and none for the members that were not written. */
  lemma {:induction false} ReceiverGetsWhatItKnows(ms: seq<Member>, ks: seq<Known>, s: In, end: nat)
    requires ValidMembers(ms) && AtMembers(s, ms, end) && Increasing(ks)
    requires forall k :: 0 <= k < |ks| ==> Agrees(ms, ks[k].tag, ks[k].t)
    ensures InBounds(s)
    ensures var r := ReadKnown(ks, s, end);
      r.Ok? && |r.value| == |ks| && forall k :: 0 <= k < |ks| ==> r.value[k] == Lookup(ms, ks[k].tag)
    decreases |ks|
  {
    if ks != [] {
      var tag := ks[0].tag;
      ReadMemberIsLookup(ms, tag, ks[0].t, s, end);
      forall k | 0 < k < |ks|
        ensures Lookup(Beyond(ms, tag), ks[k].tag) == Lookup(ms, ks[k].tag)
        ensures Agrees(Beyond(ms, tag), ks[k].tag, ks[k].t)
      {
        BeyondKeeps(ms, tag, ks[k].tag);
      }
      ReceiverGetsWhatItKnows(Beyond(ms, tag), ks[1..], ReadMember(tag, ks[0].t, s, end).rest, end);
    }
  }
}
