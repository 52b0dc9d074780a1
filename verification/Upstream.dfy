/** The connection to the broker: upstream/conn.go.

    The outside world is a value, `Io`: the trace of what happened, and what is still
    to come from outside (the broker's replies, and whether TCP dials and client
    writes succeed). The kmsg codec and the SCRAM client are the functions of a
    `Library`. */
module Upstream {
  import opened Bytes
  import opened Framing
  import opened Keys
  import opened Auth
  import opened Resolver

  // ------------------------------------------------------------- The outside world

  /** A request as it goes out: formatted by kroxy under a client id, or the client's own
      frame but for its correlation id. */
  datatype Outgoing = Typed(version: int16, clientId: Bytes, body: Bytes) | Copied(frame: Bytes)

  datatype Event =
    | Wrote(write: Write)
    | Received(frame: Bytes)
    | HandshakeAccepted(mechanism: Bytes)
    | Looked(id: Bytes, found: Option<Tenant>)
    | PlainAccepted(payload: Bytes)
    | Dialed(addr: Bytes)
    | Sent(addr: Bytes, key: int16, cid: int32, out: Outgoing)
    | Replied(addr: Bytes, body: Bytes)
    | ReplyRejected(addr: Bytes)
    | Verdict(addr: Bytes, reply: AuthReply)
    | SessionDone(addr: Bytes)
    | Answered(frame: Bytes)

  /** `replies[0]` is what the next read from the broker gives, and so on; when a
      list is used up, whatever it stands for fails. `crashed` says that the process has
      panicked, which nothing in it recovers from. */
  datatype Io = Io(
    trace: seq<Event>, replies: seq<ReadResult>, dials: seq<bool>, writes: seq<bool>, crashed: bool)

  /** The trace of `io` has only grown, and a crash is not undone. */
  predicate Extends(io: Io, io': Io) {
    io.trace <= io'.trace && (io.crashed ==> io'.crashed)
  }

  /** What is still to come from the client's side of `io` is untouched, and its trace
      has only grown. */
  predicate Continues(io: Io, io': Io) {
    Extends(io, io') && io'.writes == io.writes
  }

  function Log(io: Io, e: Event): Io { io.(trace := io.trace + [e]) }

  function Rest<T>(s: seq<T>): seq<T> { if s == [] then [] else s[1..] }

  datatype AuthReply = AuthReply(payload: Bytes, code: int16, message: Bytes)

  /** What a proxy's own responses say. */
  datatype Reply = ApiVersionsReply | HandshakeReply(code: int16) | AuthenticateReply(reply: AuthReply)

  datatype Library = Library(
    handshakeMechanism: (int16, Bytes) -> Option<Bytes>,
    authPayload: (int16, Bytes) -> Option<Bytes>,
    handshakeCode: Bytes -> Option<int16>,
    authReply: Bytes -> Option<AuthReply>,
    scramFirst: (Bytes, Bytes, Bytes) -> Option<Bytes>,
    scramNext: (Bytes, Bytes, Bytes, seq<Bytes>) -> Option<(bool, Bytes)>,
    rewriteIn: (int16, int16, Bytes, Bytes) -> Option<Bytes>,
    rewriteOut: (int16, int16, Bytes, Bytes) -> Option<Bytes>,
    encode: (int16, Reply) -> Bytes
  )

  /** The client id of the requests kroxy makes on its own account. */
  const KROXY: Bytes := Ascii("kroxy")

  const PLAIN: Bytes := Ascii("PLAIN")
  const SCRAM_SHA_256: Bytes := Ascii("SCRAM-SHA-256")
  const SCRAM_SHA_512: Bytes := Ascii("SCRAM-SHA-512")

  predicate IsScram(mechanism: Bytes) { mechanism == SCRAM_SHA_256 || mechanism == SCRAM_SHA_512 }

  lemma MechanismsDiffer()
    ensures PLAIN != [] && !IsScram(PLAIN) && !IsScram([])
  {
    assert |PLAIN| == 5 && |SCRAM_SHA_256| == 13 && |SCRAM_SHA_512| == 13;
  }

  // ----------------------------------------------------------- Correlation ids

  /** `atomic.Int32.Add(1)` */
  function NextId(id: int32): int32 {
    if id == 0x7FFF_FFFF then -0x8000_0000 else id + 1
  }

  /** The id after `n` requests on a fresh connection. */
  function IdAfter(n: nat): int32 { ToInt32(n % 0x1_0000_0000) }

  lemma NextIdAfter(n: nat)
    ensures NextId(IdAfter(n)) == IdAfter(n + 1)
  {
    var m := n % 0x1_0000_0000;
    assert (n + 1) % 0x1_0000_0000 == if m == 0xFFFF_FFFF then 0 else m + 1;
  }

  /** Ids repeat with period 2^32 and no sooner. */
  lemma IdsRepeatIff(i: nat, j: nat)
    requires i <= j
    ensures IdAfter(i) == IdAfter(j) <==> (j - i) % 0x1_0000_0000 == 0
  {
    var a, b := i % 0x1_0000_0000, j % 0x1_0000_0000;
    assert IdAfter(i) == IdAfter(j) <==> a == b;
  }

  // ------------------------------------------------------------------ Exchanges

  /** An upstream connection: where it goes, and the last id it used. */
  datatype Link = Link(addr: Bytes, lastId: int32)

  /** A broker frame accepted as the answer to request `cid`. */
  predicate Answers(r: seq<ReadResult>, cid: int32) {
    r != [] && r[0].Frame? && |r[0].body| >= 4 && ToInt32(GetUint32(r[0].body, 0)) == cid
  }

  /** RoundTripRequest and directRoundTrip: send a request under a fresh id and
      return the body of the reply that carries the same id. A reply that ends before its
      header does is sliced past its end. */
  function Exchange(io: Io, link: Link, key: int16, version: int16, clientId: Bytes, body: Bytes)
    : (r: (Io, Link, Option<Bytes>))
    ensures r.1.addr == link.addr && Continues(io, r.0)
    ensures r.2.Some? ==> |r.0.replies| < |io.replies|
    ensures ResponseHeaderVersion(key, version) == 0 || r.2.Some? ==> r.0.crashed == io.crashed
  {
    var cid := NextId(link.lastId);
    var sent := Log(io, Sent(link.addr, key, cid, Typed(version, clientId, body))).(replies := Rest(io.replies));
    var off := 4 + ResponseHeaderVersion(key, version);
    if !Answers(io.replies, cid) then (Log(sent, ReplyRejected(link.addr)), Link(link.addr, cid), None)
    else if |io.replies[0].body| < off then (sent.(crashed := true), Link(link.addr, cid), None)
    else
      var reply := io.replies[0].body[off..];
      (Log(sent, Replied(link.addr, reply)), Link(link.addr, cid), Some(reply))
  }

  /** `frame` with another id in bytes 4 to 8. */
  function WithId(frame: Bytes, cid: int32): Bytes
    requires |frame| >= 8
  {
    frame[..4] + PutInt32(cid) + frame[8..]
  }

  /** RoundTrip: forward a client's frame under a fresh id, and return the reply
      under the client's. */
  function Passthrough(io: Io, link: Link, key: int16, frame: Bytes, clientId: int32): (r: (Io, Link, Option<Bytes>))
    ensures r.1.addr == link.addr && Continues(io, r.0) && r.0.crashed == io.crashed
    ensures r.2.Some? ==> |r.2.value| >= 4 && r.2.value[..4] == PutInt32(clientId)
  {
    if |frame| < 8 then (io, link, None) else
      var cid := NextId(link.lastId);
      var sent := Log(io, Sent(link.addr, key, cid, Copied(WithId(frame, cid)))).(replies := Rest(io.replies));
      if Answers(io.replies, cid) then
        var body := io.replies[0].body[4..];
        (Log(sent, Replied(link.addr, body)), Link(link.addr, cid), Some(PutInt32(clientId) + body))
      else (Log(sent, ReplyRejected(link.addr)), Link(link.addr, cid), None)
  }

  // --------------------------------------------------- What is read of a broker's frame

  /** The next frame, if there is one and it is for request `cid`. */
  function Under(replies: seq<ReadResult>, cid: int32): (r: Option<Bytes>)
    ensures r.Some? ==> |r.value| >= 4 && replies != [] && replies[0] == Frame(r.value)
  {
    if replies == [] || replies[0].Failed? || |replies[0].body| < 4 || replies[0].body[..4] != PutInt32(cid) then None
    else Some(replies[0].body)
  }

  /** What it holds behind a response header, whose tag section is taken to be empty. */
  function Content(replies: seq<ReadResult>, key: int16, version: int16, cid: int32): Option<Bytes> {
    var n := |ResponseHeader(key, version, cid)|;
    match Under(replies, cid)
    case None => None
    case Some(frame) => if |frame| < n then None else Some(frame[n..])
  }

  lemma IdIff(frame: Bytes, cid: int32)
    requires |frame| >= 4
    ensures ToInt32(GetUint32(frame, 0)) == cid <==> frame[..4] == PutInt32(cid)
  {
    Uint32Bytes(frame);
    assert frame[..4] == PutInt32(cid) ==> GetUint32(frame, 0) == GetUint32(PutInt32(cid), 0) by {
      assert frame[0] == frame[..4][0] && frame[1] == frame[..4][1] && frame[2] == frame[..4][2]
             && frame[3] == frame[..4][3];
    }
  }

  lemma AnswersIff(replies: seq<ReadResult>, cid: int32)
    ensures Answers(replies, cid) <==> Under(replies, cid).Some?
  {
    hide PutInt32, GetUint32, ToInt32;
    if replies != [] && replies[0].Frame? && |replies[0].body| >= 4 {
      IdIff(replies[0].body, cid);
    }
  }

  /** An exchange takes one frame of the broker's, and gives what that holds behind the
      header of a response to the request. */
  lemma ExchangeIs(io: Io, link: Link, key: int16, version: int16, clientId: Bytes, body: Bytes)
    ensures var cid := NextId(link.lastId);
            var (io', link', reply) := Exchange(io, link, key, version, clientId, body);
            && reply == Content(io.replies, key, version, cid) && link' == Link(link.addr, cid)
            && io'.replies == Rest(io.replies) && io'.dials == io.dials
            && io'.trace == io.trace + [Sent(link.addr, key, cid, Typed(version, clientId, body))]
                            + (if reply.Some? then [Replied(link.addr, reply.value)]
                               else if Under(io.replies, cid) == None then [ReplyRejected(link.addr)] else [])
  {
    hide Answers, NextId, PutInt32;
    AnswersIff(io.replies, NextId(link.lastId));
    HeaderLength(key, version, NextId(link.lastId));
  }

  lemma HeaderLength(key: int16, version: int16, cid: int32)
    ensures |ResponseHeader(key, version, cid)| == 4 + ResponseHeaderVersion(key, version)
    ensures ResponseHeader(key, version, cid)[..4] == PutInt32(cid)
  {
    hide PutInt32, IsFlexibleRequest;
  }

  /** In particular: if the broker's next frame is a response, header and body, to the
      request, the exchange gives the body, whatever the broker sends after it. */
  lemma ExchangeReads(io: Io, link: Link, key: int16, version: int16, clientId: Bytes, body: Bytes, response: Bytes)
    requires io.replies != []
    requires io.replies[0] == Frame(ResponseHeader(key, version, NextId(link.lastId)) + response)
    ensures Exchange(io, link, key, version, clientId, body).2 == Some(response)
  {
    hide ResponseHeader, Exchange, PutInt32, NextId;
    var cid := NextId(link.lastId);
    ExchangeIs(io, link, key, version, clientId, body);
    ContentOfResponse(io.replies, key, version, cid, response);
  }

  lemma ContentOfResponse(replies: seq<ReadResult>, key: int16, version: int16, cid: int32, response: Bytes)
    requires replies != [] && replies[0] == Frame(ResponseHeader(key, version, cid) + response)
    ensures Under(replies, cid) == Some(ResponseHeader(key, version, cid) + response)
    ensures Content(replies, key, version, cid) == Some(response)
  {
    hide ResponseHeader, PutInt32;
    HeaderLength(key, version, cid);
    var header := ResponseHeader(key, version, cid);
    assert (header + response)[..4] == header[..4] && (header + response)[|header|..] == response;
  }

  /** A frame passed through goes out with its bytes 4 to 8 replaced by the fresh id, and
      the reply comes back with its bytes 0 to 4 replaced by the client's. */
  lemma PassthroughIs(io: Io, link: Link, key: int16, frame: Bytes, clientId: int32)
    requires |frame| >= 8
    ensures var cid := NextId(link.lastId);
            var (io', link', reply) := Passthrough(io, link, key, frame, clientId);
            && link' == Link(link.addr, cid) && io'.replies == Rest(io.replies) && io'.dials == io.dials
            && var got := Under(io.replies, cid);
               && (reply.Some? <==> got.Some?)
               && (reply.Some? ==> reply.value == PutInt32(clientId) + got.value[4..])
               && io'.trace == io.trace + [Sent(link.addr, key, cid, Copied(WithId(frame, cid)))]
                               + [if got.Some? then Replied(link.addr, got.value[4..]) else ReplyRejected(link.addr)]
  {
    hide Answers, NextId, PutInt32, WithId;
    AnswersIff(io.replies, NextId(link.lastId));
  }

  /** Nothing but those bytes changes. */
  predicate OnlyIdDiffers(frame: Bytes, out: Bytes, cid: int32) {
    && |frame| >= 8 && |out| == |frame| && out[4..8] == PutInt32(cid)
    && forall i | 0 <= i < |frame| && !(4 <= i < 8) :: out[i] == frame[i]
  }

  lemma WithIdIs(frame: Bytes, cid: int32)
    requires |frame| >= 8
    ensures OnlyIdDiffers(frame, WithId(frame, cid), cid)
  {
    hide PutInt32;
  }

  /** dialAndNegotiate: connect, ApiVersions, SaslHandshake. */
  function Negotiate(lib: Library, io: Io, addr: Bytes, mechanism: Bytes): (r: (Io, Option<Link>))
    ensures Continues(io, r.0) && r.0.crashed == io.crashed
    ensures r.1.Some? ==> r.1.value.addr == addr
  {
    var up := io.dials != [] && io.dials[0];
    var io0 := io.(dials := Rest(io.dials));
    if !up then (io0, None) else
      var (io1, link1, versions) := Exchange(Log(io0, Dialed(addr)), Link(addr, 0), API_VERSIONS, 0, KROXY, []);
      if versions == None then (io1, None) else
        var (io2, link2, reply) := Exchange(io1, link1, SASL_HANDSHAKE, 1, KROXY, mechanism);
        if reply == None || lib.handshakeCode(reply.value) != Some(0) then (io2, None) else (io2, Some(link2))
  }

  /** RelaySASLAuthenticate: one SaslAuthenticate round, with the broker's verdict. */
  function Relay(lib: Library, io: Io, link: Link, payload: Bytes): (r: (Io, Link, Option<AuthReply>))
    ensures r.1.addr == link.addr && Continues(io, r.0) && r.0.crashed == io.crashed
    ensures r.2.Some? ==> |r.0.replies| < |io.replies|
  {
    var (io1, link1, reply) := Exchange(io, link, SASL_AUTHENTICATE, 1, KROXY, payload);
    if reply == None || lib.authReply(reply.value) == None then (io1, link1, None) else
      var auth := lib.authReply(reply.value).value;
      (Log(io1, Verdict(link.addr, auth)), link1, Some(auth))
  }

  /** Dial: negotiate PLAIN and authenticate with the client's credentials. */
  function DialPlain(lib: Library, io: Io, addr: Bytes, username: Bytes, password: Bytes): (r: (Io, Option<Link>))
    ensures Continues(io, r.0) && r.0.crashed == io.crashed
    ensures r.1.Some? ==> r.1.value.addr == addr
  {
    var (io1, link) := Negotiate(lib, io, addr, PLAIN);
    if link == None then (io1, None) else
      var (io2, link2, reply) := Relay(lib, io1, link.value, UpstreamPlain(username, password));
      if reply == None || reply.value.code != 0 then (io2, None) else (io2, Some(link2))
  }

  /** The rounds of scramAuthenticate, until the session says it is done. `heard` is
      what the broker has said so far. */
  function ScramRounds(
      lib: Library, io: Io, link: Link, m: Bytes, user: Bytes, pass: Bytes, heard: seq<Bytes>, msg: Bytes)
    : (r: (Io, Option<Link>))
    ensures Continues(io, r.0) && r.0.crashed == io.crashed
    ensures r.1.Some? ==> r.1.value.addr == link.addr
    decreases |io.replies|
  {
    var (io1, link1, reply) := Relay(lib, io, link, msg);
    if reply == None || reply.value.code != 0 then (io1, None) else
      var heard1 := heard + [reply.value.payload];
      match lib.scramNext(m, user, pass, heard1)
      case None => (io1, None)
      case Some((done, next)) =>
        if !done then ScramRounds(lib, io1, link1, m, user, pass, heard1, next)
        else if next == [] then (Log(io1, SessionDone(link.addr)), Some(link1))
        else
          var (io2, link2, last) := Relay(lib, io1, link1, next);
          if last == None || last.value.code != 0 then (io2, None)
          else (Log(io2, SessionDone(link.addr)), Some(link2))
  }

  /** DialSCRAM: negotiate SCRAM and authenticate as its client. */
  function DialScram(lib: Library, io: Io, addr: Bytes, m: Bytes, user: Bytes, pass: Bytes): (r: (Io, Option<Link>))
    ensures Continues(io, r.0) && r.0.crashed == io.crashed
    ensures r.1.Some? ==> r.1.value.addr == addr
  {
    if !IsScram(m) then (io, None) else
      var (io1, link) := Negotiate(lib, io, addr, m);
      if link == None then (io1, None) else
        match lib.scramFirst(m, user, pass)
        case None => (io1, None)
        case Some(msg) => ScramRounds(lib, io1, link.value, m, user, pass, [], msg)
  }

  /** DialForSCRAM: negotiate SCRAM and leave the rounds to the client. */
  function DialRelay(lib: Library, io: Io, addr: Bytes, m: Bytes): (r: (Io, Option<Link>))
    ensures Continues(io, r.0) && r.0.crashed == io.crashed
    ensures r.1.Some? ==> r.1.value.addr == addr
  {
    if !IsScram(m) then (io, None) else Negotiate(lib, io, addr, m)
  }

  // ---------------------------------------------------------------- The classes

  /** The process's side of every socket. */
  class Network {
    var io: Io

    constructor (io: Io)
      ensures this.io == io
    {
      this.io := io;
    }

    method Note(e: Event)
      modifies this
      ensures io == Log(old(io), e)
    {
      io := io.(trace := io.trace + [e]);
    }

    method Crash()
      modifies this
      ensures io == old(io).(crashed := true)
    {
      io := io.(crashed := true);
    }

    method DialTcp() returns (ok: bool)
      modifies this
      ensures ok == (old(io).dials != [] && old(io).dials[0]) && io == old(io).(dials := Rest(old(io).dials))
    {
      ok := io.dials != [] && io.dials[0];
      io := io.(dials := Rest(io.dials));
    }

    method Receive() returns (r: ReadResult)
      modifies this
      ensures r == if old(io).replies == [] then Failed(EndOfStream(true)) else old(io).replies[0]
      ensures io == old(io).(replies := Rest(old(io).replies))
    {
      r := if io.replies == [] then Failed(EndOfStream(true)) else io.replies[0];
      io := io.(replies := Rest(io.replies));
    }
  }

  class Conn {
    const net: Network
    const addr: Bytes
    var corrIdGen: int32

    function Value(): Link
      reads this
    {
      Link(addr, corrIdGen)
    }

    constructor (net: Network, addr: Bytes)
      ensures this.net == net && Value() == Link(addr, 0)
    {
      this.net, this.addr, this.corrIdGen := net, addr, 0;
    }

    method NextCorrelationId() returns (cid: int32)
      modifies this
      ensures cid == corrIdGen == NextId(old(corrIdGen))
    {
      corrIdGen := if corrIdGen == 0x7FFF_FFFF then -0x8000_0000 else corrIdGen + 1;
      cid := corrIdGen;
    }

    method RoundTripRequest(key: int16, version: int16, clientId: Bytes, body: Bytes) returns (r: Option<Bytes>)
      modifies this, net
      ensures (net.io, Value(), r) == Exchange(old(net.io), old(Value()), key, version, clientId, body)
    {
      var cid := NextCorrelationId();
      net.Note(Sent(addr, key, cid, Typed(version, clientId, body)));
      var reply := net.Receive();
      if reply.Failed? || |reply.body| < 4 {
        net.Note(ReplyRejected(addr));
        return None;
      }
      if ToInt32(GetUint32(reply.body, 0)) != cid {
        net.Note(ReplyRejected(addr));
        return None;
      }
      var off := 4;
      if ResponseHeaderVersion(key, version) >= 1 {
        off := off + 1;
      }
      if |reply.body| < off {
        net.Crash();
        return None;
      }
      net.Note(Replied(addr, reply.body[off..]));
      return Some(reply.body[off..]);
    }

    /** The copy of the client's frame is overwritten at bytes 4 to 8, the reply at
        bytes 0 to 4. */
    method RoundTrip(key: int16, reqFrame: Bytes, clientId: int32) returns (r: Option<Bytes>)
      modifies this, net
      ensures (net.io, Value(), r) == Passthrough(old(net.io), old(Value()), key, reqFrame, clientId)
    {
      if |reqFrame| < 8 {
        return None;
      }
      var cid := NextCorrelationId();
      var out := new byte[|reqFrame|](i requires 0 <= i < |reqFrame| => reqFrame[i]);
      PutId(out, 4, cid);
      assert out[..] == WithId(reqFrame, cid);
      net.Note(Sent(addr, key, cid, Copied(out[..])));
      var reply := net.Receive();
      if reply.Failed? || |reply.body| < 4 {
        net.Note(ReplyRejected(addr));
        return None;
      }
      if ToInt32(GetUint32(reply.body, 0)) != cid {
        net.Note(ReplyRejected(addr));
        return None;
      }
      net.Note(Replied(addr, reply.body[4..]));
      var resp := new byte[|reply.body|](i requires 0 <= i < |reply.body| => reply.body[i]);
      PutId(resp, 0, clientId);
      assert resp[..] == PutInt32(clientId) + reply.body[4..];
      return Some(resp[..]);
    }

    method RelaySASLAuthenticate(lib: Library, payload: Bytes) returns (r: Option<AuthReply>)
      modifies this, net
      ensures (net.io, Value(), r) == Relay(lib, old(net.io), old(Value()), payload)
    {
      hide Exchange;
      var body := RoundTripRequest(SASL_AUTHENTICATE, 1, KROXY, payload);
      if body == None {
        return None;
      }
      r := lib.authReply(body.value);
      if r.Some? {
        net.Note(Verdict(addr, r.value));
      }
    }

    /** The SCRAM rounds as a loop, ended by the session. */
    method ScramAuthenticate(lib: Library, m: Bytes, user: Bytes, pass: Bytes) returns (ok: bool)
      modifies this, net
      ensures var first := lib.scramFirst(m, user, pass);
              if first == None then !ok && net.io == old(net.io) && Value() == old(Value())
              else var (io, link) := ScramRounds(lib, old(net.io), old(Value()), m, user, pass, [], first.value);
                   net.io == io && ok == link.Some? && (ok ==> link == Some(Value()))
    {
      hide Relay;
      var first := lib.scramFirst(m, user, pass);
      if first == None {
        return false;
      }
      var msg := first.value;
      var heard: seq<Bytes> := [];
      ghost var whole := ScramRounds(lib, net.io, Value(), m, user, pass, [], msg);
      while true
        invariant ScramRounds(lib, net.io, Value(), m, user, pass, heard, msg) == whole
        decreases |net.io.replies|
      {
        var reply := RelaySASLAuthenticate(lib, msg);
        if reply == None || reply.value.code != 0 {
          return false;
        }
        heard := heard + [reply.value.payload];
        var next := lib.scramNext(m, user, pass, heard);
        if next == None {
          return false;
        }
        if next.value.0 {
          if |next.value.1| > 0 {
            var last := RelaySASLAuthenticate(lib, next.value.1);
            if last == None || last.value.code != 0 {
              return false;
            }
          }
          net.Note(SessionDone(addr));
          return true;
        }
        msg := next.value.1;
      }
    }
  }

  /** `binary.BigEndian.PutUint32(buf[off:off+4], uint32(cid))` */
  method PutId(buf: array<byte>, off: nat, cid: int32)
    requires off + 4 <= buf.Length
    modifies buf
    ensures buf[..] == old(buf[..off]) + PutInt32(cid) + old(buf[off + 4..])
  {
    var b := PutInt32(cid);
    for i := 0 to 4
      invariant forall k | 0 <= k < i :: buf[off + k] == b[k]
      invariant forall k | 0 <= k < buf.Length && !(off <= k < off + i) :: buf[k] == old(buf[k])
    {
      buf[off + i] := b[i];
    }
  }

  method DialAndNegotiate(lib: Library, net: Network, addr: Bytes, mechanism: Bytes) returns (c: Conn?)
    modifies net
    ensures c != null ==> fresh(c) && c.net == net
    ensures (net.io, if c == null then None else Some(c.Value())) == Negotiate(lib, old(net.io), addr, mechanism)
  {
    hide Exchange;
    var up := net.DialTcp();
    if !up {
      return null;
    }
    net.Note(Dialed(addr));
    c := new Conn(net, addr);
    var versions := c.RoundTripRequest(API_VERSIONS, 0, KROXY, []);
    if versions == None {
      return null;
    }
    var reply := c.RoundTripRequest(SASL_HANDSHAKE, 1, KROXY, mechanism);
    if reply == None || lib.handshakeCode(reply.value) != Some(0) {
      return null;
    }
  }

  method Dial(lib: Library, net: Network, addr: Bytes, username: Bytes, password: Bytes) returns (c: Conn?)
    modifies net
    ensures c != null ==> fresh(c) && c.net == net
    ensures (net.io, if c == null then None else Some(c.Value()))
            == DialPlain(lib, old(net.io), addr, username, password)
  {
    hide Negotiate, Relay;
    c := DialAndNegotiate(lib, net, addr, PLAIN);
    if c == null {
      return null;
    }
    var reply := c.RelaySASLAuthenticate(lib, [NUL] + username + [NUL] + password);
    if reply == None || reply.value.code != 0 {
      return null;
    }
  }

  method DialSCRAM(lib: Library, net: Network, addr: Bytes, m: Bytes, user: Bytes, pass: Bytes) returns (c: Conn?)
    modifies net
    ensures c != null ==> fresh(c) && c.net == net
    ensures (net.io, if c == null then None else Some(c.Value())) == DialScram(lib, old(net.io), addr, m, user, pass)
  {
    hide Negotiate, ScramRounds, IsScram;
    if !IsScram(m) {
      return null;
    }
    c := DialAndNegotiate(lib, net, addr, m);
    if c == null {
      return null;
    }
    var ok := c.ScramAuthenticate(lib, m, user, pass);
    if !ok {
      return null;
    }
  }

  method DialForSCRAM(lib: Library, net: Network, addr: Bytes, m: Bytes) returns (c: Conn?)
    modifies net
    ensures c != null ==> fresh(c) && c.net == net
    ensures (net.io, if c == null then None else Some(c.Value())) == DialRelay(lib, old(net.io), addr, m)
  {
    hide Negotiate, IsScram;
    if !IsScram(m) {
      return null;
    }
    c := DialAndNegotiate(lib, net, addr, m);
  }
}
