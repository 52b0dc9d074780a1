/** What a client gets: exactly when each kind of request is answered, with what, and what
    it changes. The conditions are on the frame, on the broker's frames and on whether the
    client can be written to, in any state a run can be in. */
module Service {
  import opened Bytes
  import opened Framing
  import opened Auth
  import opened Keys
  import Header
  import opened Resolver
  import opened Upstream
  import opened Connection
  import opened Dialing
  import opened Monitor
  import opened Runs
  import opened Traffic
  import Invariant

  /** A connection that can be sent a frame, with a header of the given key. */
  predicate Open(y: System, frame: Bytes) {
    Linked(y.conn) && !y.ended && !y.io.crashed && Sendable(frame) && HeaderOf(frame).Some?
  }

  predicate Writable(io: Io) { io.writes != [] && io.writes[0] }

  /** The connection has not ended, and the last thing in its trace is this answer. */
  predicate Tells(z: System, answer: Bytes) {
    !z.ended && z.io.trace != [] && z.io.trace[|z.io.trace| - 1] == Answered(answer)
  }

  // ------------------------------------------------------------- Forwarded requests

  /** The answer to a request that went out under `cid`, if the broker's next frame gives
      one: for a key that names things, the request must rewrite, and so must what the frame
      holds behind its header; for any other, the frame as it is, but for its id. */
  function AnswerFrom(
      lib: Library, prefix: Bytes, h: Header.RequestHeader, frame: Bytes, replies: seq<ReadResult>, cid: int32)
      : Option<Bytes>
    requires 0 <= h.size <= |frame|
  {
    if NamesThings(h.key) then
      var content := Content(replies, h.key, h.version, cid);
      if lib.rewriteIn(h.key, h.version, prefix, frame[h.size..]) == None || content == None then None
      else match lib.rewriteOut(h.key, h.version, prefix, content.value)
           case None => None
           case Some(out) => Some(ResponseTo(h) + out)
    else match Under(replies, cid)
         case None => None
         case Some(reply) => Some(PutInt32(h.correlationId) + reply[4..])
  }

  lemma RewrittenServes(lib: Library, s: State, io: Io, h: Header.RequestHeader, frame: Bytes)
    requires s.upstream.Some? && 0 <= h.size <= |frame| && NamesThings(h.key)
    ensures var r := Rewritten(lib, s, io, h, frame[h.size..]);
            var cid := NextId(s.upstream.value.lastId);
            var answer := AnswerFrom(lib, s.tenant.topicPrefix, h, frame, io.replies, cid);
            && (r.ok <==> answer.Some? && Writable(io))
            && (r.ok ==> |r.io.trace| > 0 && r.io.trace[|r.io.trace| - 1] == Answered(answer.value))
  {
    hide NamesThings, Exchange, Content, NextId, ResponseFrame, ResponseTo;
    var p, link := s.tenant.topicPrefix, s.upstream.value;
    var request := lib.rewriteIn(h.key, h.version, p, frame[h.size..]);
    if request.Some? {
      ExchangeIs(io, link, h.key, h.version, h.clientId, request.value);
      var (io1, _, reply) := Exchange(io, link, h.key, h.version, h.clientId, request.value);
      if reply.Some? && lib.rewriteOut(h.key, h.version, p, reply.value).Some? {
        ResponseToIs(h, lib.rewriteOut(h.key, h.version, p, reply.value).value);
      }
    }
  }

  lemma PassedThroughServes(lib: Library, s: State, io: Io, h: Header.RequestHeader, frame: Bytes)
    requires s.upstream.Some? && 0 <= h.size <= |frame| && |frame| >= 8 && !NamesThings(h.key)
    ensures var r := PassedThrough(s, io, h, frame);
            var cid := NextId(s.upstream.value.lastId);
            var answer := AnswerFrom(lib, s.tenant.topicPrefix, h, frame, io.replies, cid);
            && (r.ok <==> answer.Some? && Writable(io))
            && (r.ok ==> |r.io.trace| > 0 && r.io.trace[|r.io.trace| - 1] == Answered(answer.value))
  {
    hide NamesThings, Passthrough, Under, NextId, PutInt32;
    PassthroughIs(io, s.upstream.value, h.key, frame, h.correlationId);
  }

  /** Reaching the broker, and being answered by it. */
  ghost predicate Served(w: Setting, y: System, frame: Bytes, n: nat, cid: int32, answer: Bytes)
    requires HeaderOf(frame).Some?
  {
    && y.conn.phase == Authenticated && Reaches(w.lib, w.cfg, y.conn, y.io, n, cid)
    && AnswerFrom(w.lib, y.conn.tenant.topicPrefix, HeaderOf(frame).value, frame, Skip(y.io.replies, n), cid)
       == Some(answer)
  }

  /** A request, other than those kroxy answers itself, is answered exactly if the client is
      authenticated, the broker is reached, dialing first if need be, its next frame is a
      whole response to the request, and the client can be written to; and then with that
      response, its names rewritten. Otherwise the connection ends. */
  lemma RequestsAreServedIff(w: Setting, y: System, frame: Bytes)
    requires Open(y, frame) && !OpensConnection(HeaderOf(frame).value.key)
    ensures var z := Next(w, y, ClientSends(frame));
            && (!z.ended <==> Writable(y.io) && exists n, cid, answer :: Served(w, y, frame, n, cid, answer))
            && (forall n, cid, answer | Served(w, y, frame, n, cid, answer) && Writable(y.io) :: Tells(z, answer))
  {
    hide EnsureUpstream, Rewritten, PassedThrough, HeaderOf, HasRewriter, NamesThings, Reaches, Skip, AnswerFrom;
    var z := Next(w, y, ClientSends(frame));
    var h := HeaderOf(frame).value;
    var io1 := Log(y.io, Received(frame));
    ReachesIff(w.lib, w.cfg, y.conn, y.io, io1);
    RewriterIff(h.key);
    var dialed := EnsureUpstream(w.lib, w.cfg, y.conn, io1);
    if y.conn.phase == Authenticated && dialed.ok {
      var n, cid := ReachesIf(w.lib, w.cfg, y.conn, io1);
      ForwardServes(w, y, frame, n, cid);
      assert AnswerFrom(w.lib, y.conn.tenant.topicPrefix, h, frame, Skip(y.io.replies, n), cid).Some? ==>
             Served(w, y, frame, n, cid,
                    AnswerFrom(w.lib, y.conn.tenant.topicPrefix, h, frame, Skip(y.io.replies, n), cid).value);
    }
    forall n, cid, answer | Served(w, y, frame, n, cid, answer)
      ensures dialed.ok && (Writable(y.io) ==> Tells(z, answer))
    {
      ForwardServes(w, y, frame, n, cid);
    }
  }

  lemma ForwardServes(w: Setting, y: System, frame: Bytes, n: nat, cid: int32)
    requires Open(y, frame) && y.conn.phase == Authenticated && !OpensConnection(HeaderOf(frame).value.key)
    requires Reaches(w.lib, w.cfg, y.conn, Log(y.io, Received(frame)), n, cid)
    ensures var z := Next(w, y, ClientSends(frame));
            var h := HeaderOf(frame).value;
            var answer := AnswerFrom(w.lib, y.conn.tenant.topicPrefix, h, frame, Skip(y.io.replies, n), cid);
            && EnsureUpstream(w.lib, w.cfg, y.conn, Log(y.io, Received(frame))).ok
            && (!z.ended <==> answer.Some? && Writable(y.io))
            && (!z.ended ==> Tells(z, answer.value))
  {
    hide EnsureUpstream, Rewritten, PassedThrough, HeaderOf, HasRewriter, NamesThings, Reaches, Skip, AnswerFrom;
    var h := HeaderOf(frame).value;
    var io1 := Log(y.io, Received(frame));
    ReachesThen(w.lib, w.cfg, y.conn, io1, n, cid);
    RewriterIff(h.key);
    var dialed := EnsureUpstream(w.lib, w.cfg, y.conn, io1);
    if NamesThings(h.key) {
      RewrittenServes(w.lib, dialed.state, dialed.io, h, frame);
    } else {
      PassedThroughServes(w.lib, dialed.state, dialed.io, h, frame);
    }
  }

  // ------------------------------------------------------- ApiVersions and handshakes

  /** A response of kroxy's own. */
  function Own(w: Setting, frame: Bytes, reply: Reply): Bytes
    requires HeaderOf(frame).Some?
  {
    var h := HeaderOf(frame).value;
    ResponseTo(h) + w.lib.encode(h.version, reply)
  }

  /** Answering with a response of kroxy's own. */
  lemma RespondTells(w: Setting, s: State, io: Io, h: Header.RequestHeader, reply: Reply)
    ensures var r := Respond(w.lib, s, io, h, reply);
            && r.state == s && r.ok == Writable(io)
            && (r.ok ==>
                && |r.io.trace| > 0
                && r.io.trace[|r.io.trace| - 1] == Answered(ResponseTo(h) + w.lib.encode(h.version, reply)))
  {
    hide ResponseFrame, ResponseTo;
    ResponseToIs(h, w.lib.encode(h.version, reply));
  }

  /** ApiVersions is answered in any state, and changes nothing. */
  lemma ApiVersionsServedIff(w: Setting, y: System, frame: Bytes)
    requires Open(y, frame) && HeaderOf(frame).value.key == API_VERSIONS
    ensures var z := Next(w, y, ClientSends(frame));
            && z.conn == y.conn && (!z.ended <==> Writable(y.io))
            && (!z.ended ==> Tells(z, Own(w, frame, ApiVersionsReply)))
  {
    hide HeaderOf, Respond, ResponseTo;
    RespondTells(w, y.conn, Log(y.io, Received(frame)), HeaderOf(frame).value, ApiVersionsReply);
  }

  /** A handshake that decodes is answered whenever the client can be written to: the first
      one with 0 for PLAIN, SCRAM-SHA-256 and SCRAM-SHA-512 and with 33 for anything else, a
      later one with 34. It changes something only in the first case. */
  lemma HandshakeServedIff(w: Setting, y: System, frame: Bytes)
    requires Open(y, frame) && HeaderOf(frame).value.key == SASL_HANDSHAKE
    ensures var z := Next(w, y, ClientSends(frame));
            var h := HeaderOf(frame).value;
            var mechanism := w.lib.handshakeMechanism(h.version, frame[h.size..]);
            && (!z.ended <==> mechanism.Some? && Writable(y.io))
            && (mechanism.Some? ==>
                var code := if y.conn.phase != AwaitHandshake then 34 else if Supported(mechanism.value) then 0 else 33;
                && z.conn == (if code == 0 then y.conn.(phase := AwaitAuth, mechanism := mechanism.value) else y.conn)
                && (Writable(y.io) ==> Tells(z, Own(w, frame, HandshakeReply(code)))))
  {
    hide HeaderOf, Respond, ResponseTo, IsScram, Supported;
    var h := HeaderOf(frame).value;
    var m := w.lib.handshakeMechanism(h.version, frame[h.size..]);
    var io1 := Log(y.io, Received(frame));
    if m.Some? {
      Invariant.SupportedIff(m.value);
      RespondTells(w, y.conn, io1, h, HandshakeReply(34));
      RespondTells(w, y.conn, io1, h, HandshakeReply(33));
      RespondTells(w, y.conn.(phase := AwaitAuth, mechanism := m.value), Log(io1, HandshakeAccepted(m.value)), h,
                   HandshakeReply(0));
    }
  }

  // ---------------------------------------------------------------------- PLAIN

  /** `payload` is the PLAIN message of `c`, who is a tenant of the catalogue. */
  predicate Admits(tenants: Catalogue, payload: Bytes, c: PlainCredentials) {
    payload == PlainMessage(c) && NUL !in c.authzid && NUL !in c.username && c.username in tenants
  }

  /** A PLAIN client is let in exactly by a PLAIN message that names a tenant of the
      catalogue, and is bound to that tenant and to the message's password. Any other message
      changes nothing and is answered with code 58. */
  lemma PlainAdmitsIff(w: Setting, y: System, frame: Bytes, payload: Bytes)
    requires Open(y, frame) && HeaderOf(frame).value.key == SASL_AUTHENTICATE
    requires y.conn.phase == AwaitAuth && y.conn.mechanism == PLAIN
    requires var h := HeaderOf(frame).value; w.lib.authPayload(h.version, frame[h.size..]) == Some(payload)
    ensures var z := Next(w, y, ClientSends(frame));
            && (z.conn.phase == Authenticated <==> exists c :: Admits(y.tenants, payload, c))
            && (z.conn.phase != Authenticated ==> z.conn == y.conn)
            && (forall c | Admits(y.tenants, payload, c) ::
                  z.conn == y.conn.(phase := Authenticated, tenant := y.tenants[c.username], password := c.password))
            && (!z.ended <==> Writable(y.io))
            && (z.ended || exists reply ::
                  && Tells(z, Own(w, frame, AuthenticateReply(reply)))
                  && reply.code == if z.conn.phase == Authenticated then 0 else 58)
  {
    hide HeaderOf, Respond, ResponseTo, Plain, PlainMessage, IsScram, Ascii;
    MechanismsDiffer();
    var h := HeaderOf(frame).value;
    var io1 := Log(y.io, Received(frame));
    var z := Next(w, y, ClientSends(frame));
    forall c | payload == PlainMessage(c) && NUL !in c.authzid && NUL !in c.username ensures Plain(payload) == Some(c) {
      PlainIff(payload, c);
    }
    if Plain(payload) == None {
      RespondTells(w, y.conn, io1, h, Refuse(AUTH_FAILED, "malformed PLAIN payload"));
      assert Tells(z, Own(w, frame, Refuse(AUTH_FAILED, "malformed PLAIN payload"))) || z.ended;
    } else {
      var c := Plain(payload).value;
      PlainIff(payload, c);
      var found := Find(y.tenants, c.username);
      var io2 := Log(io1, Looked(c.username, found));
      if found == None {
        RespondTells(w, y.conn, io2, h, Refuse(AUTH_FAILED, "authentication failed"));
        assert Tells(z, Own(w, frame, Refuse(AUTH_FAILED, "authentication failed"))) || z.ended;
      } else {
        assert Admits(y.tenants, payload, c);
        RespondTells(w, y.conn.(phase := Authenticated, tenant := found.value, password := c.password),
                     Log(io2, PlainAccepted(payload)), h, AuthenticateReply(AuthReply([], 0, [])));
        assert Tells(z, Own(w, frame, AuthenticateReply(AuthReply([], 0, [])))) || z.ended;
      }
    }
  }

  // ---------------------------------------------------------------------- SCRAM

  /** What a relayed round does, once the broker is connected. */
  lemma RoundServes(w: Setting, s: State, io: Io, h: Header.RequestHeader, payload: Bytes)
    requires s.upstream.Some? && s.phase == RelayInFlight
    ensures var cid := NextId(s.upstream.value.lastId);
            var verdict := VerdictIn(w.lib, io.replies, cid);
            var r := RelayRound(w.lib, s, io, h, payload);
            var rounds := s.rounds + if Approves(verdict) then 1 else 0;
            && r.state == s.(upstream := Some(Link(s.upstream.value.addr, cid)), rounds := rounds,
                             phase := if Approves(verdict) && rounds >= 2 then Authenticated else RelayInFlight)
            && (r.ok <==> verdict.Some? && Writable(io))
            && (r.ok ==>
                && |r.io.trace| > 0
                && r.io.trace[|r.io.trace| - 1]
                   == Answered(ResponseTo(h) + w.lib.encode(h.version, AuthenticateReply(verdict.value))))
  {
    hide Relay, VerdictIn, Respond, ResponseTo, NextId;
    RelayIs(w.lib, io, s.upstream.value, payload);
    var (io1, link, reply) := Relay(w.lib, io, s.upstream.value, payload);
    if reply.Some? {
      var r := RelayRound(w.lib, s, io, h, payload);
      var s1 := s.(upstream := Some(link));
      var rounds := s.rounds + 1;
      RespondTells(w, s1, io1, h, AuthenticateReply(reply.value));
      RespondTells(w, s1.(rounds := rounds, phase := if rounds >= 2 then Authenticated else s.phase), io1, h,
                   AuthenticateReply(reply.value));
    }
  }

  /** `payload` is client-first-message `m`, which names a tenant whose broker takes the
      dial and the mechanism. */
  predicate Relays(lib: Library, tenants: Catalogue, io: Io, payload: Bytes, m: ClientFirst) {
    WellFormed(m) && payload == ClientFirstMessage(m) && m.name in tenants && Negotiates(lib, io)
  }

  /** A SCRAM client's relay starts exactly on a well-formed client-first-message that
      names a tenant of the catalogue whose broker takes the dial and the mechanism; it is
      then bound to that tenant and its broker, and told that broker's verdict. Any other
      message is answered with code 58. */
  lemma ScramRelaysIff(w: Setting, y: System, frame: Bytes, payload: Bytes)
    requires Open(y, frame) && HeaderOf(frame).value.key == SASL_AUTHENTICATE
    requires y.conn.phase == AwaitAuth && IsScram(y.conn.mechanism) && y.conn.upstream == None
    requires var h := HeaderOf(frame).value; w.lib.authPayload(h.version, frame[h.size..]) == Some(payload)
    ensures var z := Next(w, y, ClientSends(frame));
            var verdict := VerdictIn(w.lib, Skip(y.io.replies, 2), 3);
            && (z.conn.upstream.Some? <==> exists m :: Relays(w.lib, y.tenants, y.io, payload, m))
            && (forall m | Relays(w.lib, y.tenants, y.io, payload, m) ::
                  && z.conn.tenant == y.tenants[m.name]
                  && z.conn.upstream == Some(Link(y.tenants[m.name].upstream, 3))
                  && z.conn.rounds == y.conn.rounds + (if Approves(verdict) then 1 else 0)
                  && (!z.ended <==> verdict.Some? && Writable(y.io))
                  && (!z.ended ==> Tells(z, Own(w, frame, AuthenticateReply(verdict.value)))))
            && (z.conn.upstream == None ==>
                && z.conn == y.conn.(tenant := z.conn.tenant)
                && (!z.ended <==> Writable(y.io))
                && (z.ended || exists reply :: Tells(z, Own(w, frame, AuthenticateReply(reply))) && reply.code == 58))
  {
    hide HeaderOf, Respond, ResponseTo, ParseClientFirst, ClientFirstMessage, WellFormed, IsScram, Ascii, Negotiate,
         Negotiates, RelayRound, VerdictIn, Skip, Find;
    var h := HeaderOf(frame).value;
    var z := Next(w, y, ClientSends(frame));
    var io1 := Log(y.io, Received(frame));
    forall m | WellFormed(m) && payload == ClientFirstMessage(m) ensures ParseClientFirst(payload) == Some(m) {
      ClientFirstIff(payload, m);
    }
    if ParseClientFirst(payload) == None {
      RespondTells(w, y.conn, io1, h, Refuse(AUTH_FAILED, "malformed SCRAM client-first-message"));
      assert Tells(z, Own(w, frame, Refuse(AUTH_FAILED, "malformed SCRAM client-first-message"))) || z.ended;
    } else {
      var m := ParseClientFirst(payload).value;
      ClientFirstIff(payload, m);
      FoundIff(y.tenants, m.name);
      var found := Find(y.tenants, m.name);
      var io2 := Log(io1, Looked(m.name, found));
      if found == None {
        RespondTells(w, y.conn, io2, h, Refuse(AUTH_FAILED, "authentication failed"));
        assert Tells(z, Own(w, frame, Refuse(AUTH_FAILED, "authentication failed"))) || z.ended;
      } else {
        FoundIs(y.tenants, m.name);
        var s1 := y.conn.(tenant := found.value);
        NegotiateIff(w.lib, io2, found.value.upstream, y.conn.mechanism);
        NegotiatesSame(w.lib, y.io, io2);
        SmallIds();
        var (io3, link) := Negotiate(w.lib, io2, found.value.upstream, y.conn.mechanism);
        if link == None {
          RespondTells(w, s1, io3, h, Refuse(AUTH_FAILED, "upstream unavailable"));
          assert Tells(z, Own(w, frame, Refuse(AUTH_FAILED, "upstream unavailable"))) || z.ended;
        } else {
          RoundServes(w, s1.(upstream := link, phase := RelayInFlight), io3, h, payload);
          assert Relays(w.lib, y.tenants, y.io, payload, m);
        }
      }
    }
  }

  lemma FoundIs(m: Catalogue, id: Bytes)
    ensures id in m ==> Find(m, id) == Some(m[id])
  {}

  lemma NegotiatesSame(lib: Library, io: Io, io': Io)
    requires io'.replies == io.replies && io'.dials == io.dials
    ensures Negotiates(lib, io) <==> Negotiates(lib, io')
  {}

  /** A later message is relayed as it is. The client is told the broker's verdict, and the
      second approval lets it in. */
  lemma ScramRoundsIff(w: Setting, y: System, frame: Bytes, payload: Bytes)
    requires Open(y, frame) && HeaderOf(frame).value.key == SASL_AUTHENTICATE
    requires y.conn.phase == RelayInFlight && IsScram(y.conn.mechanism)
    requires var h := HeaderOf(frame).value; w.lib.authPayload(h.version, frame[h.size..]) == Some(payload)
    ensures var z := Next(w, y, ClientSends(frame));
            var verdict := VerdictIn(w.lib, y.io.replies, NextId(y.conn.upstream.value.lastId));
            && z.conn.rounds == y.conn.rounds + (if Approves(verdict) then 1 else 0)
            && (z.conn.phase == Authenticated <==> Approves(verdict) && z.conn.rounds >= 2)
            && (!z.ended <==> verdict.Some? && Writable(y.io))
            && (!z.ended ==> Tells(z, Own(w, frame, AuthenticateReply(verdict.value))))
  {
    hide HeaderOf, RelayRound, VerdictIn, IsScram, ResponseTo, NextId;
    RoundServes(w, y.conn, Log(y.io, Received(frame)), HeaderOf(frame).value, payload);
  }

  // -------------------------------------------------------- What is not served

  /** A frame whose header is not accepted, and an authentication message that does not
      decode, end the connection unanswered and change nothing. */
  lemma UnreadableEnds(w: Setting, y: System, frame: Bytes)
    requires Linked(y.conn) && !y.ended && !y.io.crashed && Sendable(frame)
    requires HeaderOf(frame).Some? ==>
             var h := HeaderOf(frame).value;
             h.key == SASL_AUTHENTICATE && w.lib.authPayload(h.version, frame[h.size..]) == None
    ensures var z := Next(w, y, ClientSends(frame));
            z.ended && z.conn == y.conn && z.io.trace == y.io.trace + [Received(frame)]
  {
    hide HeaderOf, HeaderPanics, IsScram;
  }

  /** An authentication message that decodes, but comes before the handshake or after the
      client was let in, is answered with code 34 and changes nothing. */
  lemma MisplacedIsRefused(w: Setting, y: System, frame: Bytes)
    requires Open(y, frame) && HeaderOf(frame).value.key == SASL_AUTHENTICATE
    requires y.conn.phase == AwaitHandshake || y.conn.phase == Authenticated
    requires var h := HeaderOf(frame).value; w.lib.authPayload(h.version, frame[h.size..]).Some?
    ensures var z := Next(w, y, ClientSends(frame));
            && z.conn == y.conn && (!z.ended <==> Writable(y.io))
            && (z.ended || exists reply :: Tells(z, Own(w, frame, AuthenticateReply(reply))) && reply.code == 34)
  {
    hide HeaderOf, Respond, ResponseTo, IsScram, Ascii;
    var z := Next(w, y, ClientSends(frame));
    RespondTells(w, y.conn, Log(y.io, Received(frame)), HeaderOf(frame).value,
                 Refuse(ILLEGAL_STATE, "SASL handshake required"));
    assert Tells(z, Own(w, frame, Refuse(ILLEGAL_STATE, "SASL handshake required"))) || z.ended;
  }
}
