/** The request-header parser of protocol/header.go: what a header is, what the
    parser does with Go's 64-bit `int`, and exactly when the two agree. */
module Header {
  import opened Bytes
  import opened Framing
  import opened Keys
  import opened Varint

  datatype RequestHeader = RequestHeader(
    key: int16, version: int16, correlationId: int32, clientId: Bytes, headerVersion: int, size: int)

  // ---------------------------------------------------------- What a header is

  /** One tagged field's tag and length, at `off`: where its data starts, and the
      length it declares. */
  function TagAt(frame: Bytes, off: nat): (r: Option<(nat, uint64)>)
    requires off <= |frame|
    ensures r.Some? ==> off + 2 <= r.value.0 <= |frame|
  {
    match Uvarint(frame[off..])
    case Value(_, c1) =>
      (match Uvarint(frame[off + c1..])
       case Value(length, c2) => Some((off + c1 + c2, length))
       case _ => None)
    case _ => None
  }

  /** Where `n` tagged fields that start at `off` end, if the frame holds them. */
  function SkipTags(frame: Bytes, off: nat, n: nat): (r: Option<nat>)
    requires off <= |frame|
    ensures r.Some? ==> off + 2 * n <= r.value <= |frame|
    decreases n
  {
    if n == 0 then Some(off)
    else match TagAt(frame, off)
         case None => None
         case Some((data, length)) =>
           if data + length > |frame| then None else SkipTags(frame, data + length, n - 1)
  }

  /** The tag section: a count, and that many fields. */
  function SkipTagSection(frame: Bytes, off: nat): (r: Option<nat>)
    requires off <= |frame|
    ensures r.Some? ==> off < r.value <= |frame|
  {
    match Uvarint(frame[off..])
    case Value(n, c) => SkipTags(frame, off + c, n)
    case _ => None
  }

  /** The client id at offset 8: a nullable string, never compact. */
  function ClientIdAt(frame: Bytes): (r: Option<(Bytes, nat)>)
    requires |frame| >= 8
    ensures r.Some? ==> 10 <= r.value.1 <= |frame|
  {
    if |frame| < 10 then None else
      var n := ToInt16(GetUint16(frame, 8));
      if n <= 0 then Some(([], 10))
      else if |frame| < 10 + n then None
      else Some((frame[10..10 + n], 10 + n))
  }

  /** The fixed part of a header, the rest still to be filled in. */
  function FixedPart(frame: Bytes): RequestHeader
    requires |frame| >= 8
  {
    var key, version := ToInt16(GetUint16(frame, 0)), ToInt16(GetUint16(frame, 2));
    RequestHeader(key, version, ToInt32(GetUint32(frame, 4)), [], RequestHeaderVersion(key, version), 0)
  }

  /** The header at the start of a frame, in unbounded arithmetic. */
  function Parse(frame: Bytes): (r: Option<RequestHeader>)
    ensures r.Some? ==> 10 <= r.value.size <= |frame|
  {
    if |frame| < 8 then None else
      var h := FixedPart(frame);
      match ClientIdAt(frame)
      case None => None
      case Some((id, off)) =>
        if h.headerVersion < 2 then Some(h.(clientId := id, size := off))
        else match SkipTagSection(frame, off)
             case None => None
             case Some(end) => Some(h.(clientId := id, size := end))
  }

  // ---------------------------------------------------------- What the parser does

  /** Go's int arithmetic: a 64-bit value modulo 2^64. */
  function ToInt64(x: int): (r: int)
    ensures -0x8000_0000_0000_0000 <= r < 0x8000_0000_0000_0000
    ensures -0x8000_0000_0000_0000 <= x < 0x8000_0000_0000_0000 ==> r == x
  {
    var m := x % TWO64;
    if m < 0x8000_0000_0000_0000 then m else m - TWO64
  }

  /** `off + int(length)`, as the parser computes it. */
  function Advance(off: int, length: uint64): int {
    ToInt64(off + ToInt64(length))
  }

  /** `Panics` is an index outside the frame. */
  datatype Result<+T> = Accepted(value: T) | Rejected | Panics

  /** The parser's loop over tagged fields. */
  function SkipTagsInt64(frame: Bytes, off: int, n: nat): Result<int>
    decreases n
  {
    if n == 0 then Accepted(off)
    else if !(0 <= off <= |frame|) then Panics
    else match TagAt(frame, off)
         case None => Rejected
         case Some((data, length)) =>
           if |frame| < Advance(data, length) then Rejected
           else SkipTagsInt64(frame, Advance(data, length), n - 1)
  }

  function ParseInt64(frame: Bytes): Result<RequestHeader> {
    if |frame| < 8 then Rejected else
      var h := FixedPart(frame);
      match ClientIdAt(frame)
      case None => Rejected
      case Some((id, off)) =>
        if h.headerVersion < 2 then Accepted(h.(clientId := id, size := off))
        else match Uvarint(frame[off..])
             case Value(n, c) =>
               (match SkipTagsInt64(frame, off + c, n)
                case Accepted(end) => Accepted(h.(clientId := id, size := end))
                case Rejected => Rejected
                case Panics => Panics)
             case _ => Rejected
  }

  /** How many fields the loop steps over, out of a count of `n`. */
  function Rounds(frame: Bytes, off: int, n: nat): nat
    decreases n
  {
    if n == 0 || !(0 <= off <= |frame|) then 0
    else match TagAt(frame, off)
         case None => 0
         case Some((data, length)) =>
           if |frame| < Advance(data, length) then 0 else 1 + Rounds(frame, Advance(data, length), n - 1)
  }

  /** Where the tag section's fields start, and how many it declares. */
  function TagCount(frame: Bytes): (r: Option<(nat, uint64)>)
    ensures r.Some? ==> 10 < r.value.0 <= |frame|
  {
    if |frame| < 8 || FixedPart(frame).headerVersion < 2 || ClientIdAt(frame) == None then None else
      var off := ClientIdAt(frame).value.1;
      match Uvarint(frame[off..])
      case Value(n, c) => Some((off + c, n))
      case _ => None
  }

  /** How many fields the parser steps over in a frame. */
  function FrameRounds(frame: Bytes): nat {
    var tags := TagCount(frame);
    if tags == None then 0 else Rounds(frame, tags.value.0, tags.value.1)
  }

  /** The parser; `rounds` counts the turns its loop completes. */
  method ParseRequestHeader(frame: Bytes) returns (r: Result<RequestHeader>, ghost rounds: nat)
    ensures r == ParseInt64(frame)
    ensures rounds == FrameRounds(frame)
  {
    hide Uvarint, GetUint16, GetUint32, ToInt16, ToInt32, Advance, RequestHeaderVersion;
    rounds := 0;
    if |frame| < 8 {
      return Rejected, rounds;
    }
    var key := ToInt16(GetUint16(frame, 0));
    var version := ToInt16(GetUint16(frame, 2));
    var h := RequestHeader(key, version, ToInt32(GetUint32(frame, 4)), [], RequestHeaderVersion(key, version), 0);
    var off: int := 8;
    if h.headerVersion >= 1 {
      if |frame| < off + 2 {
        return Rejected, rounds;
      }
      var clen := ToInt16(GetUint16(frame, off));
      off := off + 2;
      if clen > 0 {
        if |frame| < off + clen {
          return Rejected, rounds;
        }
        h := h.(clientId := frame[off..off + clen]);
        off := off + clen;
      }
    }
    if h.headerVersion >= 2 {
      var count := ReadUvarint(frame[off..]);
      if !count.Value? {
        return Rejected, rounds;
      }
      off := off + count.consumed;
      ghost var whole := SkipTagsInt64(frame, off, count.value);
      ghost var turns := Rounds(frame, off, count.value);
      var i := 0;
      while i < count.value
        invariant i <= count.value
        invariant SkipTagsInt64(frame, off, count.value - i) == whole
        invariant rounds + Rounds(frame, off, count.value - i) == turns
      {
        if !(0 <= off <= |frame|) {
          return Panics, rounds;
        }
        var tag := ReadUvarint(frame[off..]);
        if !tag.Value? {
          return Rejected, rounds;
        }
        var length := ReadUvarint(frame[off + tag.consumed..]);
        if !length.Value? {
          return Rejected, rounds;
        }
        var data := off + tag.consumed + length.consumed;
        if |frame| < Advance(data, length.value) {
          return Rejected, rounds;
        }
        off := Advance(data, length.value);
        i := i + 1;
        rounds := rounds + 1;
      }
    }
    return Accepted(h.(size := off)), rounds;
  }

  // ------------------------------------------------------------- When they agree

  /** The parser's bounds check and the real bound differ exactly on lengths that
      reach past the int range. */
  lemma BoundCheckIff(frame: Bytes, data: nat, length: uint64)
    requires data <= |frame| <= MAX_FRAME_SIZE
    ensures |frame| < Advance(data, length) <==> |frame| < data + length < 0x8000_0000_0000_0000
    ensures data + length < 0x8000_0000_0000_0000 ==> Advance(data, length) == data + length
  {}

  /** No declared length runs past the int range before one runs past the frame. */
  predicate LengthsFit(frame: Bytes, off: nat, n: nat)
    requires off <= |frame|
    decreases n
  {
    n == 0 ||
    match TagAt(frame, off)
    case None => true
    case Some((data, length)) =>
      if data + length > |frame| then data + length < 0x8000_0000_0000_0000
      else LengthsFit(frame, data + length, n - 1)
  }

  /** Every field the parser steps over lies inside the frame. */
  predicate StaysInside(frame: Bytes, off: int, n: nat)
    decreases n
  {
    n == 0 ||
    (&& 0 <= off <= |frame|
     && match TagAt(frame, off)
        case None => true
        case Some((data, length)) =>
          |frame| < Advance(data, length)
          || (data + length <= |frame| && StaysInside(frame, Advance(data, length), n - 1)))
  }

  lemma {:induction false} StaysInsideIff(frame: Bytes, off: nat, n: nat)
    requires off <= |frame| <= MAX_FRAME_SIZE
    ensures StaysInside(frame, off, n) <==> LengthsFit(frame, off, n)
    ensures LengthsFit(frame, off, n) ==>
      SkipTagsInt64(frame, off, n)
      == if SkipTags(frame, off, n) == None then Rejected else Accepted(SkipTags(frame, off, n).value)
    decreases n
  {
    hide TagAt;
    if n > 0 && TagAt(frame, off).Some? {
      var (data, length) := TagAt(frame, off).value;
      BoundCheckIff(frame, data, length);
      if data + length <= |frame| {
        StaysInsideIff(frame, data + length, n - 1);
      }
    }
  }

  /** The whole frame's tag lengths fit. */
  predicate FrameFits(frame: Bytes) {
    var tags := TagCount(frame);
    tags.Some? ==> LengthsFit(frame, tags.value.0, tags.value.1)
  }

  /** On a frame whose lengths fit the parser is exact: it never indexes outside the
      frame, it accepts exactly the frames that hold a header, and what it accepts is
      that header. */
  lemma ParserIsExact(frame: Bytes)
    requires |frame| <= MAX_FRAME_SIZE && FrameFits(frame)
    ensures ParseInt64(frame) == if Parse(frame) == None then Rejected else Accepted(Parse(frame).value)
    ensures ParseInt64(frame).Accepted? ==> 10 <= ParseInt64(frame).value.size <= |frame|
  {
    hide Uvarint, SkipTags, SkipTagsInt64, LengthsFit;
    if TagCount(frame).Some? {
      StaysInsideIff(frame, TagCount(frame).value.0, TagCount(frame).value.1);
    }
  }

  /** The lengths met on the walk over the fields, the last one included, are below 2^31. */
  predicate LengthsSmall(frame: Bytes, off: nat, n: nat)
    requires off <= |frame|
    decreases n
  {
    n == 0 ||
    match TagAt(frame, off)
    case None => true
    case Some((data, length)) =>
      length < 0x8000_0000 && (data + length <= |frame| ==> LengthsSmall(frame, data + length, n - 1))
  }

  lemma {:induction false} SmallLengthsFitFrom(frame: Bytes, off: nat, n: nat)
    requires off <= |frame| <= MAX_FRAME_SIZE && LengthsSmall(frame, off, n)
    ensures LengthsFit(frame, off, n)
    decreases n
  {
    hide TagAt;
    if n > 0 && TagAt(frame, off).Some? {
      var (data, length) := TagAt(frame, off).value;
      if data + length <= |frame| {
        SmallLengthsFitFrom(frame, data + length, n - 1);
      }
    }
  }

  /** A frame whose tagged fields declare lengths below 2^31 fits, whatever its body. */
  lemma SmallLengthsFit(frame: Bytes)
    requires |frame| <= MAX_FRAME_SIZE
    requires var tags := TagCount(frame); tags.Some? ==> LengthsSmall(frame, tags.value.0, tags.value.1)
    ensures FrameFits(frame)
  {
    hide TagCount, LengthsSmall, LengthsFit;
    var tags := TagCount(frame);
    if tags.Some? {
      SmallLengthsFitFrom(frame, tags.value.0, tags.value.1);
    }
  }

  lemma {:induction false} RoundsBound(frame: Bytes, off: nat, n: nat)
    requires off <= |frame| <= MAX_FRAME_SIZE && LengthsFit(frame, off, n)
    ensures 2 * Rounds(frame, off, n) <= |frame| - off
    ensures SkipTagsInt64(frame, off, n).Accepted? <==> Rounds(frame, off, n) == n
    decreases n
  {
    hide TagAt, Advance;
    if n > 0 && TagAt(frame, off).Some? {
      var (data, length) := TagAt(frame, off).value;
      BoundCheckIff(frame, data, length);
      if data + length <= |frame| {
        RoundsBound(frame, data + length, n - 1);
      }
    }
  }

  /** Whatever count a fitting frame declares, the loop turns at most once for every two
      bytes of the frame. */
  lemma FrameRoundsBound(frame: Bytes)
    requires |frame| <= MAX_FRAME_SIZE && FrameFits(frame)
    ensures 2 * FrameRounds(frame) <= |frame|
  {
    hide TagCount, LengthsFit, Rounds;
    var tags := TagCount(frame);
    if tags.Some? {
      RoundsBound(frame, tags.value.0, tags.value.1);
    }
  }

  // ----------------------------------------------------------------- Round trip

  datatype Tag = Tag(tag: uint64, data: Bytes)

  function EncodeTags(tags: seq<Tag>): Bytes
    requires forall i | 0 <= i < |tags| :: |tags[i].data| < TWO64
  {
    if tags == [] then [] else
      EncodeUvarint(tags[0].tag) + EncodeUvarint(|tags[0].data|) + tags[0].data + EncodeTags(tags[1..])
  }

  function EncodeClientId(id: Option<Bytes>): Bytes
    requires id.Some? ==> |id.value| < 0x8000
  {
    match id
    case None => PutInt16(-1)
    case Some(s) => PutInt16(|s|) + s
  }

  /** A header as a client lays it out: version 2 headers end with tagged fields. */
  function EncodeHeader(key: int16, version: int16, correlationId: int32, id: Option<Bytes>, tags: seq<Tag>): Bytes
    requires id.Some? ==> |id.value| < 0x8000
    requires |tags| < TWO64 && forall i | 0 <= i < |tags| :: |tags[i].data| < TWO64
  {
    PutInt16(key) + PutInt16(version) + PutInt32(correlationId) + EncodeClientId(id)
    + if IsFlexibleRequest(key, version) then EncodeUvarint(|tags|) + EncodeTags(tags) else []
  }

  lemma TagAtEncoded(before: Bytes, t: Tag, after: Bytes)
    requires |t.data| < TWO64
    ensures var e := EncodeUvarint(t.tag) + EncodeUvarint(|t.data|);
            TagAt(before + (e + after), |before|) == Some((|before| + |e|, |t.data|))
  {
    hide Uvarint, EncodeUvarint;
    var e1, e2 := EncodeUvarint(t.tag), EncodeUvarint(|t.data|);
    var frame := before + (e1 + e2 + after);
    assert frame[|before|..] == e1 + (e2 + after);
    assert frame[|before| + |e1|..] == e2 + after;
    UvarintRoundTrip(t.tag, e2 + after);
    UvarintRoundTrip(|t.data|, after);
  }

  lemma {:induction false} SkipEncodedTags(before: Bytes, tags: seq<Tag>, body: Bytes)
    requires forall i | 0 <= i < |tags| :: |tags[i].data| < TWO64
    ensures var frame := before + (EncodeTags(tags) + body);
            SkipTags(frame, |before|, |tags|) == Some(|before| + |EncodeTags(tags)|)
            && LengthsFit(frame, |before|, |tags|)
    decreases |tags|
  {
    hide TagAt, EncodeUvarint;
    if tags != [] {
      var t := tags[0];
      var e := EncodeUvarint(t.tag) + EncodeUvarint(|t.data|);
      var rest := EncodeTags(tags[1..]) + body;
      TagAtEncoded(before, t, t.data + rest);
      var next := before + (e + t.data);
      SkipEncodedTags(next, tags[1..], body);
      assert EncodeTags(tags) == e + t.data + EncodeTags(tags[1..]);
      Reassociate(before, e, t.data, EncodeTags(tags[1..]), body);
    }
  }

  lemma Reassociate(a: Bytes, b: Bytes, c: Bytes, d: Bytes, e: Bytes)
    ensures a + ((b + c + d) + e) == a + (b + (c + (d + e)))
    ensures a + ((b + c + d) + e) == (a + (b + c)) + (d + e)
  {}

  lemma FixedPartEncoded(key: int16, version: int16, correlationId: int32, rest: Bytes)
    ensures FixedPart(PutInt16(key) + PutInt16(version) + PutInt32(correlationId) + rest)
            == RequestHeader(key, version, correlationId, [], RequestHeaderVersion(key, version), 0)
  {
    var k, v, c := PutInt16(key), PutInt16(version), PutInt32(correlationId);
    var f := k + v + c + rest;
    assert f[0] == k[0] && f[1] == k[1] && f[2] == v[0] && f[3] == v[1];
    assert f[4] == c[0] && f[5] == c[1] && f[6] == c[2] && f[7] == c[3];
  }

  lemma ClientIdEncoded(fixed: Bytes, id: Option<Bytes>, rest: Bytes)
    requires |fixed| == 8 && (id.Some? ==> |id.value| < 0x8000)
    ensures ClientIdAt(fixed + (EncodeClientId(id) + rest))
            == Some((if id == None then [] else id.value, 8 + |EncodeClientId(id)|))
  {
    var n := PutInt16(if id == None then -1 else |id.value|);
    var f := fixed + (EncodeClientId(id) + rest);
    assert f[8] == n[0] && f[9] == n[1];
    if id.Some? {
      assert f[10..10 + |id.value|] == id.value;
    }
  }

  /** The tag section after `start`, followed by a body. */
  lemma SectionEncoded(start: Bytes, tags: seq<Tag>, body: Bytes)
    requires |tags| < TWO64 && forall i | 0 <= i < |tags| :: |tags[i].data| < TWO64
    ensures var count := EncodeUvarint(|tags|);
            var frame := start + (count + EncodeTags(tags) + body);
            && Uvarint(frame[|start|..]) == Value(|tags|, |count|)
            && LengthsFit(frame, |start| + |count|, |tags|)
            && SkipTagSection(frame, |start|) == Some(|start| + |count| + |EncodeTags(tags)|)
  {
    hide Uvarint, EncodeUvarint, EncodeTags, SkipTags, LengthsFit;
    var count := EncodeUvarint(|tags|);
    var frame := start + (count + EncodeTags(tags) + body);
    assert frame[|start|..] == count + (EncodeTags(tags) + body);
    UvarintRoundTrip(|tags|, EncodeTags(tags) + body);
    assert frame == (start + count) + (EncodeTags(tags) + body);
    SkipEncodedTags(start + count, tags, body);
  }

  /** The header has tagged fields exactly in flexible versions. */
  lemma HeaderVersionIff(key: int16, version: int16)
    ensures RequestHeaderVersion(key, version) == 2 <==> IsFlexibleRequest(key, version)
  {}

  /** Any header, followed by any body, parses back to its fields and its length. */
  lemma HeaderRoundTrip(
      key: int16, version: int16, correlationId: int32, id: Option<Bytes>, tags: seq<Tag>, body: Bytes)
    requires id.Some? ==> |id.value| < 0x8000
    requires |tags| < TWO64 && forall i | 0 <= i < |tags| :: |tags[i].data| < TWO64
    requires |EncodeHeader(key, version, correlationId, id, tags) + body| <= MAX_FRAME_SIZE
    ensures var header := EncodeHeader(key, version, correlationId, id, tags);
            ParseInt64(header + body)
            == Accepted(RequestHeader(key, version, correlationId, if id == None then [] else id.value,
                                      RequestHeaderVersion(key, version), |header|))
  {
    HeaderVersionIff(key, version);
    hide Uvarint, EncodeUvarint, EncodeTags, EncodeClientId, SkipTagSection, LengthsFit, FixedPart, ClientIdAt,
         RequestHeaderVersion, IsFlexibleRequest, ParseInt64;
    var fixed := PutInt16(key) + PutInt16(version) + PutInt32(correlationId);
    var start := fixed + EncodeClientId(id);
    var section := if IsFlexibleRequest(key, version) then EncodeUvarint(|tags|) + EncodeTags(tags) else [];
    var frame := EncodeHeader(key, version, correlationId, id, tags) + body;
    assert frame == fixed + (EncodeClientId(id) + (section + body)) == start + (section + body);
    FixedPartEncoded(key, version, correlationId, EncodeClientId(id) + (section + body));
    ClientIdEncoded(fixed, id, section + body);
    SectionEncoded(start, tags, body);
    ParserIsExact(frame);
  }

  // ------------------------------------------------------------------- Locality

  lemma TagAtLocal(a: Bytes, b: Bytes, off: nat, end: nat)
    requires off <= end <= |a| && end <= |b| && a[..end] == b[..end]
    requires TagAt(a, off).Some? && TagAt(a, off).value.0 <= end
    ensures TagAt(b, off) == TagAt(a, off)
  {
    UvarintAtLocal(a, b, off, end);
    UvarintAtLocal(a, b, off + Uvarint(a[off..]).consumed, end);
  }

  lemma UvarintAtLocal(a: Bytes, b: Bytes, off: nat, end: nat)
    requires off <= end <= |a| && end <= |b| && a[..end] == b[..end]
    requires Uvarint(a[off..]).Value? && off + Uvarint(a[off..]).consumed <= end
    ensures Uvarint(b[off..]) == Uvarint(a[off..])
  {
    var c := Uvarint(a[off..]).consumed;
    assert a[off..][..c] == a[..end][off..off + c];
    assert b[off..][..c] == b[..end][off..off + c];
    UvarintLocal(a[off..], b[off..]);
  }

  lemma {:induction false} SkipTagsLocal(a: Bytes, b: Bytes, off: nat, n: nat)
    requires off <= |a| && SkipTags(a, off, n).Some?
    requires SkipTags(a, off, n).value <= |b| && a[..SkipTags(a, off, n).value] == b[..SkipTags(a, off, n).value]
    ensures SkipTags(b, off, n) == SkipTags(a, off, n)
    decreases n
  {
    hide TagAt;
    if n > 0 {
      var (data, length) := TagAt(a, off).value;
      TagAtLocal(a, b, off, SkipTags(a, off, n).value);
      SkipTagsLocal(a, b, data + length, n - 1);
    }
  }

  /** The fixed part and the client id, for two frames that start with the same bytes. */
  lemma StartsLocal(a: Bytes, b: Bytes, end: nat)
    requires 8 <= end <= |a| && end <= |b| && a[..end] == b[..end]
    requires ClientIdAt(a).Some? && ClientIdAt(a).value.1 <= end
    ensures FixedPart(b) == FixedPart(a) && ClientIdAt(b) == ClientIdAt(a)
  {
    hide RequestHeaderVersion;
    forall i | 0 <= i < end ensures a[i] == b[i] {
      assert a[i] == a[..end][i] == b[..end][i];
    }
    var off := ClientIdAt(a).value.1;
    forall i | 0 <= i < off - 10 ensures a[10..off][i] == b[10..off][i] {
      assert a[10 + i] == b[10 + i];
    }
    assert a[10..off] == b[10..off];
  }

  lemma ParseLocality(a: Bytes, b: Bytes)
    requires Parse(a).Some?
    requires Parse(a).value.size <= |b| && a[..Parse(a).value.size] == b[..Parse(a).value.size]
    ensures Parse(b) == Parse(a)
  {
    hide Uvarint, SkipTags;
    var end := Parse(a).value.size;
    StartsLocal(a, b, end);
    hide FixedPart, ClientIdAt;
    var (id, off) := ClientIdAt(a).value;
    if FixedPart(a).headerVersion >= 2 {
      UvarintAtLocal(a, b, off, end);
      var v := Uvarint(a[off..]);
      SkipTagsLocal(a, b, off + v.consumed, v.value);
    }
  }

  lemma {:induction false} SkippedTagsFit(frame: Bytes, off: nat, n: nat)
    requires off <= |frame| && SkipTags(frame, off, n).Some?
    ensures LengthsFit(frame, off, n)
    decreases n
  {
    hide TagAt;
    if n > 0 {
      var (data, length) := TagAt(frame, off).value;
      SkippedTagsFit(frame, data + length, n - 1);
    }
  }

  lemma ParsedFits(frame: Bytes)
    requires Parse(frame).Some?
    ensures FrameFits(frame)
  {
    hide SkipTags, LengthsFit;
    var tags := TagCount(frame);
    if tags.Some? {
      SkippedTagsFit(frame, tags.value.0, tags.value.1);
    }
  }

  /** What the parser accepts is the header the frame holds exactly when the frame's
      lengths fit. */
  lemma AcceptedIsHeaderIff(frame: Bytes)
    requires |frame| <= MAX_FRAME_SIZE && ParseInt64(frame).Accepted?
    ensures Parse(frame) == Some(ParseInt64(frame).value) <==> FrameFits(frame)
  {
    hide Parse, ParseInt64, FrameFits;
    if FrameFits(frame) {
      ParserIsExact(frame);
    } else if Parse(frame).Some? {
      ParsedFits(frame);
    }
  }

  /** On the way over `n` fields from `off`, one ends between 2^63 and 2^64: as an int
      that is below zero. A field that ends at 2^64 or beyond leads back into the frame, and
      one that ends past the frame, but below 2^63, ends the way. */
  predicate GoesNegative(frame: Bytes, off: nat, n: nat)
    requires off <= |frame|
    decreases n
  {
    n > 0 &&
    match TagAt(frame, off)
    case None => false
    case Some((data, length)) =>
      var end := data + length;
      if end < 0x8000_0000_0000_0000 then end <= |frame| && GoesNegative(frame, end, n - 1)
      else if end < TWO64 then true
      else GoesNegative(frame, end - TWO64, n - 1)
  }

  predicate FrameGoesNegative(frame: Bytes) {
    var tags := TagCount(frame);
    tags.Some? && GoesNegative(frame, tags.value.0, tags.value.1)
  }

  /** Where the parser's int is, for a field that ends past the int range. */
  lemma AdvanceWraps(data: nat, length: uint64)
    requires data <= MAX_FRAME_SIZE && data + length >= 0x8000_0000_0000_0000
    ensures Advance(data, length) == data + length - TWO64
  {}

  lemma {:induction false} GoesNegativeIff(frame: Bytes, off: nat, n: nat)
    requires off <= |frame| <= MAX_FRAME_SIZE
    ensures GoesNegative(frame, off, n) <==>
            var end := SkipTagsInt64(frame, off, n);
            end.Panics? || (end.Accepted? && !(0 <= end.value <= |frame|))
    decreases n
  {
    hide TagAt, Advance;
    if n > 0 && TagAt(frame, off).Some? {
      var (data, length) := TagAt(frame, off).value;
      BoundCheckIff(frame, data, length);
      if data + length >= 0x8000_0000_0000_0000 {
        AdvanceWraps(data, length);
        if data + length >= TWO64 {
          GoesNegativeIff(frame, data + length - TWO64, n - 1);
        }
      } else if data + length <= |frame| {
        GoesNegativeIff(frame, data + length, n - 1);
      }
    }
  }

  /** Exactly which frames send the parser, or the slice behind the header it gives,
      outside the frame. */
  lemma OutsideIff(frame: Bytes)
    requires |frame| <= MAX_FRAME_SIZE
    ensures FrameGoesNegative(frame) <==>
            var parsed := ParseInt64(frame);
            parsed.Panics? || (parsed.Accepted? && !(0 <= parsed.value.size <= |frame|))
  {
    hide Uvarint, SkipTagsInt64, GoesNegative, FixedPart;
    var tags := TagCount(frame);
    if tags.Some? {
      GoesNegativeIff(frame, tags.value.0, tags.value.1);
    }
  }

  /** What the parser accepts, in a frame that fits, depends on the header's own bytes
      only: a frame that starts with the same `size` bytes parses the same, whatever
      follows. */
  lemma HeaderLocality(a: Bytes, b: Bytes)
    requires |a| <= MAX_FRAME_SIZE && |b| <= MAX_FRAME_SIZE && FrameFits(a) && ParseInt64(a).Accepted?
    requires 0 <= ParseInt64(a).value.size <= |a| && ParseInt64(a).value.size <= |b|
    requires a[..ParseInt64(a).value.size] == b[..ParseInt64(a).value.size]
    ensures ParseInt64(b) == ParseInt64(a)
  {
    hide Parse, ParseInt64, FrameFits;
    ParserIsExact(a);
    ParseLocality(a, b);
    ParsedFits(b);
    ParserIsExact(b);
  }

  // -------------------------------------------------- A length that does not fit

  /** A version-2 header that declares `count` fields, and one field that claims
      `length` bytes and has none. */
  function ClaimingFrame(count: uint64, length: uint64): Bytes {
    ClaimingStart(count) + (EncodeUvarint(0) + EncodeUvarint(length))
  }

  function ClaimingStart(count: uint64): Bytes {
    PutInt16(API_VERSIONS) + PutInt16(3) + PutInt32(7) + EncodeClientId(None) + EncodeUvarint(count)
  }

  lemma ClaimAt(before: Bytes, length: uint64)
    ensures var frame := before + (EncodeUvarint(0) + EncodeUvarint(length));
            TagAt(frame, |before|) == Some((|frame|, length))
  {
    hide Uvarint, EncodeUvarint;
    var e1, e2 := EncodeUvarint(0), EncodeUvarint(length);
    var frame := before + (e1 + e2);
    assert frame[|before|..] == e1 + e2;
    assert frame[|before| + |e1|..] == e2 + [];
    UvarintRoundTrip(0, e2);
    UvarintRoundTrip(length, []);
  }

  /** The parser on such a frame is its loop on the one field. */
  lemma ClaimingFrameParse(count: uint64, length: uint64)
    ensures var frame, at := ClaimingFrame(count, length), |ClaimingStart(count)|;
            && 11 <= at && at + 2 <= |frame| <= 40
            && TagCount(frame) == Some((at, count))
            && TagAt(frame, at) == Some((|frame|, length))
            && (ParseInt64(frame).Panics? <==> SkipTagsInt64(frame, at, count).Panics?)
            && (ParseInt64(frame).Accepted? <==> SkipTagsInt64(frame, at, count).Accepted?)
            && (ParseInt64(frame).Accepted? ==> ParseInt64(frame).value.size == SkipTagsInt64(frame, at, count).value)
            && (Parse(frame).Some? <==> SkipTags(frame, at, count).Some?)
  {
    hide Uvarint, EncodeUvarint, SkipTags, SkipTagsInt64, FixedPart, ClientIdAt, TagAt;
    var fixed := PutInt16(API_VERSIONS) + PutInt16(3) + PutInt32(7);
    var start := fixed + EncodeClientId(None);
    var n := EncodeUvarint(count);
    var field := EncodeUvarint(0) + EncodeUvarint(length);
    var frame := ClaimingFrame(count, length);
    assert frame == fixed + (EncodeClientId(None) + (n + field)) == start + (n + field) == (start + n) + field;
    FixedPartEncoded(API_VERSIONS, 3, 7, EncodeClientId(None) + (n + field));
    ClientIdEncoded(fixed, None, n + field);
    UvarintRoundTrip(count, field);
    UvarintRoundTrip(0, EncodeUvarint(length));
    UvarintRoundTrip(length, []);
    assert frame[|start|..] == n + field;
    ClaimAt(start + n, length);
  }

  /** A field that claims 2^64 - 1 bytes: no frame of this size holds it, but as an int
      the length is -1, so the parser takes the field for skipped and reports a header one
      byte short. */
  lemma OversizedLengthIsAccepted() returns (frame: Bytes)
    ensures |frame| <= MAX_FRAME_SIZE && !FrameFits(frame)
    ensures Parse(frame) == None
    ensures ParseInt64(frame).Accepted? && ParseInt64(frame).value.size == |frame| - 1
  {
    hide TagCount, TagAt, Parse, ParseInt64, ClaimingFrame, ClaimingStart;
    frame := ClaimingFrame(1, TWO64 - 1);
    ClaimingFrameParse(1, TWO64 - 1);
    assert Advance(|frame|, TWO64 - 1) == |frame| - 1;
  }

  /** A field that claims 2^63 bytes takes the offset below zero: a second field is
      looked for outside the frame, and without a second field the header's size is
      negative. */
  lemma OversizedLengthPanics() returns (frame: Bytes, short: Bytes)
    ensures |frame| <= MAX_FRAME_SIZE && ParseInt64(frame) == Panics
    ensures |short| <= MAX_FRAME_SIZE && ParseInt64(short).Accepted? && ParseInt64(short).value.size < 0
  {
    hide TagCount, TagAt, Parse, ParseInt64, ClaimingFrame, ClaimingStart;
    var length: uint64 := 0x8000_0000_0000_0000;
    frame, short := ClaimingFrame(2, length), ClaimingFrame(1, length);
    ClaimingFrameParse(2, length);
    ClaimingFrameParse(1, length);
    assert Advance(|frame|, length) == |frame| - 0x8000_0000_0000_0000;
    assert Advance(|short|, length) == |short| - 0x8000_0000_0000_0000;
  }

  /** A field that claims 2^64 - 11 bytes takes the loop back to the field itself, which
      is 11 bytes long: a frame of at most 40 bytes keeps it turning for as many turns as
      the frame declares. */
  lemma OversizedLengthRepeats(count: uint64) returns (frame: Bytes)
    ensures |frame| <= 40 && FrameRounds(frame) == count && ParseInt64(frame).Accepted?
  {
    hide TagCount, TagAt, Parse, ParseInt64, ClaimingFrame, ClaimingStart, SkipTagsInt64, Rounds;
    var length: uint64 := TWO64 - 11;
    frame := ClaimingFrame(count, length);
    ClaimingFrameParse(count, length);
    var at := |ClaimingStart(count)|;
    assert |frame| == at + 11 by { ClaimIsElevenBytes(count, length); }
    RepeatsFrom(frame, at, count);
  }

  lemma ClaimIsElevenBytes(count: uint64, length: uint64)
    requires length >= 0x8000_0000_0000_0000
    ensures |ClaimingFrame(count, length)| == |ClaimingStart(count)| + 11
  {
    hide EncodeUvarint, Pow2;
    assert EncodeUvarint(0) == [0] by { EncodeZero(); }
    TopBitTakesTen(length);
  }

  lemma {:induction false} RepeatsFrom(frame: Bytes, at: nat, n: nat)
    requires at + 11 == |frame| <= MAX_FRAME_SIZE && TagAt(frame, at) == Some((|frame|, TWO64 - 11))
    ensures Rounds(frame, at, n) == n && SkipTagsInt64(frame, at, n) == Accepted(at)
  {
    hide TagAt;
    if n > 0 {
      assert Advance(|frame|, TWO64 - 11) == at;
      RepeatsFrom(frame, at, n - 1);
    }
  }
}
