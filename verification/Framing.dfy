/** Length-prefixed frames on a byte stream: protocol/framing.go. */
module Framing {
  import opened Bytes

  const MAX_FRAME_SIZE := 100 * 1024 * 1024

  /** The errors ReadFrame tells apart. `EndOfStream` is any error for which
      `errors.Is(err, io.EOF)` holds, bare or wrapped. */
  datatype ReadError = EndOfStream(bare: bool) | CutShort | ZeroLength | TooLarge

  datatype ReadResult = Frame(body: Bytes) | Failed(error: ReadError)

  /** One read from a stream that will deliver `data` and then end: the result, and
      what is left of the stream. */
  function Read(data: Bytes): (r: (ReadResult, Bytes))
    ensures r.0.Frame? ==> |r.1| < |data|
  {
    if |data| < 4 then (Failed(if data == [] then EndOfStream(true) else CutShort), [])
    else
      var size := GetUint32(data, 0);
      var rest := data[4..];
      if size == 0 then (Failed(ZeroLength), rest)
      else if size > MAX_FRAME_SIZE then (Failed(TooLarge), rest)
      else if |rest| < size then (Failed(if rest == [] then EndOfStream(false) else CutShort), [])
      else (Frame(rest[..size]), rest[size..])
  }

  /** The bytes of one written frame. The length field is `uint32(len(body))`. */
  function Written(body: Bytes): Bytes {
    PutUint32(|body| % 0x1_0000_0000) + body
  }

  datatype FullRead = All(bytes: Bytes) | Short(got: nat)

  /** A connection whose peer has sent, or will read, the bytes of `data`. */
  class Wire {
    var data: Bytes

    constructor (data: Bytes)
      ensures this.data == data
    {
      this.data := data;
    }

    /** io.ReadFull: all `n` bytes, or whatever there was. */
    method ReadFull(n: nat) returns (r: FullRead)
      modifies this
      ensures n <= |old(data)| ==> r == All(old(data)[..n]) && data == old(data)[n..]
      ensures n > |old(data)| ==> r == Short(|old(data)|) && data == []
    {
      if n <= |data| {
        r := All(data[..n]);
        data := data[n..];
      } else {
        r := Short(|data|);
        data := [];
      }
    }

    method ReadFrame() returns (r: ReadResult)
      modifies this
      ensures (r, data) == Read(old(data))
    {
      var hdr := ReadFull(4);
      if hdr.Short? {
        return Failed(if hdr.got == 0 then EndOfStream(true) else CutShort);
      }
      var size := GetUint32(hdr.bytes, 0);
      assert size == GetUint32(old(data), 0);
      if size == 0 {
        return Failed(ZeroLength);
      }
      if size > MAX_FRAME_SIZE {
        return Failed(TooLarge);
      }
      var buf := ReadFull(size);
      if buf.Short? {
        return Failed(if buf.got == 0 then EndOfStream(false) else CutShort);
      }
      return Frame(buf.bytes);
    }

    method WriteFrame(body: Bytes)
      modifies this
      ensures data == old(data) + Written(body)
    {
      data := data + PutUint32(|body| % 0x1_0000_0000);
      data := data + body;
    }
  }

  // ----------------------------------------------------------------- One frame

  predicate Sendable(body: Bytes) { 1 <= |body| <= MAX_FRAME_SIZE }

  lemma ReadWritten(body: Bytes, rest: Bytes)
    ensures |Written(body) + rest| >= 4 && GetUint32(Written(body) + rest, 0) == |body| % 0x1_0000_0000
    ensures (Written(body) + rest)[4..] == body + rest
  {
    var hdr, data := PutUint32(|body| % 0x1_0000_0000), Written(body) + rest;
    assert data[0] == hdr[0] && data[1] == hdr[1] && data[2] == hdr[2] && data[3] == hdr[3];
  }

  /** A written frame is read back, and nothing after it is touched, exactly when
      its body is neither empty nor over the limit. */
  lemma FrameRoundTripIff(body: Bytes, rest: Bytes)
    ensures Read(Written(body) + rest) == (Frame(body), rest) <==> Sendable(body)
  {
    ReadWritten(body, rest);
    if Sendable(body) {
      assert (body + rest)[..|body|] == body;
      assert (body + rest)[|body|..] == rest;
    }
  }

  /** What was read as a frame was a written frame. */
  lemma ReadFrameIsWritten(data: Bytes)
    requires Read(data).0.Frame?
    ensures Sendable(Read(data).0.body) && data == Written(Read(data).0.body) + Read(data).1
  {
    var size := GetUint32(data, 0);
    var body := data[4..][..size];
    Uint32Bytes(data);
    assert data == data[..4] + (body + data[4..][size..]);
  }

  lemma Uint32Bytes(data: Bytes)
    requires |data| >= 4
    ensures PutUint32(GetUint32(data, 0)) == data[..4]
  {
    var hi, lo := GetUint16(data, 0), GetUint16(data, 2);
    var v := GetUint32(data, 0);
    assert v / 0x1_0000 == hi && v % 0x1_0000 == lo;
    assert PutUint16(hi) == [data[0], data[1]] && PutUint16(lo) == [data[2], data[3]];
  }

  /** An end of stream is reported at a frame boundary, bare; and also, wrapped, when
      the stream ends right after the length of a frame that never came. */
  lemma EndOfStreamIff(data: Bytes)
    ensures Read(data).0 == Failed(EndOfStream(true)) <==> data == []
    ensures Read(data).0 == Failed(EndOfStream(false)) <==> |data| == 4 && 1 <= GetUint32(data, 0) <= MAX_FRAME_SIZE
  {}

  // -------------------------------------------------------------- Whole streams

  function WrittenAll(bodies: seq<Bytes>): Bytes {
    if bodies == [] then [] else Written(bodies[0]) + WrittenAll(bodies[1..])
  }

  /** Reading until the first error: the bodies, the error, and where it struck. */
  function ReadAll(data: Bytes): (seq<Bytes>, ReadError, Bytes)
    decreases |data|
  {
    match Read(data)
    case (Failed(e), _) => ([], e, data)
    case (Frame(body), rest) =>
      var (bodies, e, at) := ReadAll(rest);
      ([body] + bodies, e, at)
  }

  /** Every stream is the frames it is read as, followed by what could not be read. */
  lemma {:induction false} ReadAllIsExact(data: Bytes)
    ensures var (bodies, e, at) := ReadAll(data);
            && data == WrittenAll(bodies) + at
            && Read(at).0 == Failed(e)
            && forall i | 0 <= i < |bodies| :: Sendable(bodies[i])
    decreases |data|
  {
    hide Read, Written, Sendable;
    if Read(data).0.Frame? {
      var (r, rest) := Read(data);
      ReadFrameIsWritten(data);
      ReadAllIsExact(rest);
      var (bodies, _, at) := ReadAll(rest);
      assert ([r.body] + bodies)[1..] == bodies;
      assert Written(r.body) + (WrittenAll(bodies) + at) == (Written(r.body) + WrittenAll(bodies)) + at;
    }
  }

  /** Frames read back in order, up to whatever ends the stream. */
  lemma {:induction false} ReadAllWritten(bodies: seq<Bytes>, at: Bytes)
    requires (forall i | 0 <= i < |bodies| :: Sendable(bodies[i])) && Read(at).0.Failed?
    ensures ReadAll(WrittenAll(bodies) + at) == (bodies, Read(at).0.error, at)
  {
    hide Read, Written, Sendable;
    if bodies == [] {
      assert WrittenAll(bodies) + at == at;
    } else {
      var rest := WrittenAll(bodies[1..]) + at;
      FrameRoundTripIff(bodies[0], rest);
      assert WrittenAll(bodies) + at == Written(bodies[0]) + rest;
      ReadAllWritten(bodies[1..], at);
      assert [bodies[0]] + bodies[1..] == bodies;
    }
  }

  /** How many whole frames the first `n` bytes hold. */
  function Whole(bodies: seq<Bytes>, n: nat): (k: nat)
    ensures k <= |bodies|
  {
    if bodies == [] || n < |Written(bodies[0])| then 0 else 1 + Whole(bodies[1..], n - |Written(bodies[0])|)
  }

  /** That is: as many as fit, and the next one does not. */
  lemma {:induction false} WholeIsMost(bodies: seq<Bytes>, n: nat)
    requires n <= |WrittenAll(bodies)|
    ensures var k := Whole(bodies, n);
            && |WrittenAll(bodies[..k])| <= n
            && (k == |bodies| ==> n == |WrittenAll(bodies)|)
            && (k < |bodies| ==> n < |WrittenAll(bodies[..k])| + |Written(bodies[k])|)
  {
    hide Written;
    var k := Whole(bodies, n);
    if k == 0 {
      assert bodies[..0] == [];
    } else {
      WholeIsMost(bodies[1..], n - |Written(bodies[0])|);
      assert bodies[..k][1..] == bodies[1..][..k - 1];
    }
  }

  /** A stream of frames cut anywhere gives the whole frames before the cut and no
      other; it ends in a bare end of stream exactly when the cut is between frames. */
  lemma CutStream(bodies: seq<Bytes>, n: nat)
    requires (forall i | 0 <= i < |bodies| :: Sendable(bodies[i])) && n <= |WrittenAll(bodies)|
    ensures var k := Whole(bodies, n);
            var read := ReadAll(WrittenAll(bodies)[..n]);
            && read.0 == bodies[..k]
            && (read.1 == EndOfStream(true) <==> n == |WrittenAll(bodies[..k])|)
  {
    hide Written, Read, ReadAll, WrittenAll, Whole;
    var k := Whole(bodies, n);
    WholeIsMost(bodies, n);
    var part := n - |WrittenAll(bodies[..k])|;
    if k == |bodies| {
      assert bodies[..k] == bodies;
    }
    CutInFrame(bodies, k, part);
    var sent := WrittenAll(bodies[..k]) + (if k == |bodies| then [] else Written(bodies[k])[..part]);
    assert |sent| == n && sent == WrittenAll(bodies)[..n];
  }

  lemma CutInFrame(bodies: seq<Bytes>, k: nat, part: nat)
    requires forall i | 0 <= i < |bodies| :: Sendable(bodies[i])
    requires k <= |bodies| && (if k == |bodies| then part == 0 else part < |Written(bodies[k])|)
    ensures var sent := WrittenAll(bodies[..k]) + (if k == |bodies| then [] else Written(bodies[k])[..part]);
            && sent <= WrittenAll(bodies)
            && ReadAll(sent).0 == bodies[..k]
            && (ReadAll(sent).1 == EndOfStream(true) <==> part == 0)
  {
    hide Written, Read, ReadAll, WrittenAll;
    var at := if k == |bodies| then [] else Written(bodies[k])[..part];
    CutIsPrefix(bodies, k, part);
    if k < |bodies| {
      CutFrame(bodies[k], part);
    }
    EndOfStreamIff(at);
    assert Read(at).0.Failed?;
    ReadAllWritten(bodies[..k], at);
  }

  lemma CutIsPrefix(bodies: seq<Bytes>, k: nat, part: nat)
    requires k <= |bodies| && (k < |bodies| ==> part <= |Written(bodies[k])|)
    ensures WrittenAll(bodies[..k]) + (if k == |bodies| then [] else Written(bodies[k])[..part]) <= WrittenAll(bodies)
  {
    hide Written;
    WrittenAllSplit(bodies, k);
    if k < |bodies| {
      var w := Written(bodies[k]);
      var rest := WrittenAll(bodies[k..][1..]);
      assert WrittenAll(bodies[k..]) == w + rest;
      var before := WrittenAll(bodies[..k]);
      assert before + (w + rest) == (before + w[..part]) + (w[part..] + rest);
    }
  }

  lemma CutFrame(body: Bytes, part: nat)
    requires Sendable(body) && part < |Written(body)|
    ensures Read(Written(body)[..part]).0.Failed?
    ensures Written(body)[..part] == [] <==> part == 0
  {
    ReadWritten(body, []);
    assert Written(body) + [] == Written(body);
    var cut := Written(body)[..part];
    if part >= 4 {
      assert cut[0] == Written(body)[0] && cut[1] == Written(body)[1];
      assert cut[2] == Written(body)[2] && cut[3] == Written(body)[3];
      assert GetUint32(cut, 0) == |body|;
    }
  }

  lemma {:induction false} WrittenAllSplit(bodies: seq<Bytes>, k: nat)
    requires k <= |bodies|
    ensures WrittenAll(bodies) == WrittenAll(bodies[..k]) + WrittenAll(bodies[k..])
  {
    hide Written;
    if k == 0 {
      assert bodies[k..] == bodies;
    } else {
      WrittenAllSplit(bodies[1..], k - 1);
      assert bodies[1..][..k - 1] == bodies[..k][1..];
      assert bodies[1..][k - 1..] == bodies[k..];
      var a, b, c := Written(bodies[0]), WrittenAll(bodies[..k][1..]), WrittenAll(bodies[k..]);
      assert a + (b + c) == (a + b) + c;
    }
  }
}
