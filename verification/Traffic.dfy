/** What one request makes the proxy send upstream: openers of a connection, or the
    request itself, once. */
module Traffic {
  import opened Bytes
  import opened Auth
  import opened Keys
  import opened Resolver
  import opened Upstream
  import opened Connection
  import opened Dialing
  import opened Monitor
  import opened Runs
  import Header

  /** The keys whose requests name the broker's records. */
  predicate Records(key: int16) {
    || key == METADATA || key == PRODUCE || key == FETCH || key == LIST_OFFSETS || key == OFFSET_COMMIT
    || key == OFFSET_FETCH || key == OFFSET_DELETE || key == LIST_GROUPS || key == DELETE_GROUPS
    || key == CREATE_TOPICS || key == DELETE_TOPICS
  }

  lemma RecordsAreRewritten(key: int16)
    requires Records(key)
    ensures HasRewriter(key) && !OpensConnection(key)
  {}

  // ------------------------------------------------- What one request sends upstream

  /** From `io` to `io'`, nothing that names records is sent, and one of the broker's
      frames is taken for each thing that is. */
  predicate Silent(io: Io, io': Io) {
    && io.trace <= io'.trace
    && io'.replies == Skip(io.replies, Sends(io'.trace[|io.trace|..]))
    && forall j | |io.trace| <= j < |io'.trace| :: io'.trace[j].Sent? ==> !Records(io'.trace[j].key)
  }

  lemma SilentThen(a: Io, b: Io, c: Io)
    requires Silent(a, b) && Silent(b, c)
    ensures Silent(a, c)
  {
    hide Records, Skip, Sends;
    assert forall j | |a.trace| <= j < |b.trace| :: c.trace[j] == b.trace[j];
    var n := |b.trace| - |a.trace|;
    SendsSplit(c.trace[|a.trace|..], n);
    assert c.trace[|a.trace|..][..n] == b.trace[|a.trace|..];
    assert c.trace[|a.trace|..][n..] == c.trace[|b.trace|..];
    SkipMore(a.replies, Sends(b.trace[|a.trace|..]), Sends(c.trace[|b.trace|..]));
  }

  lemma OpenersAreNotRecords()
    ensures !Records(API_VERSIONS) && !Records(SASL_HANDSHAKE) && !Records(SASL_AUTHENTICATE)
  {}

  lemma ExchangeSilent(io: Io, link: Link, key: int16, version: int16, clientId: Bytes, body: Bytes)
    requires !Records(key)
    ensures Silent(io, Exchange(io, link, key, version, clientId, body).0)
  {
    hide Records, Exchange, Content, Under, NextId, Sends;
    ExchangeIs(io, link, key, version, clientId, body);
    var (io', _, reply) := Exchange(io, link, key, version, clientId, body);
    var cid := NextId(link.lastId);
    OneSend(io.trace, io'.trace, Upstream.Sent(link.addr, key, cid, Typed(version, clientId, body)),
            if reply.Some? then [Replied(link.addr, reply.value)]
            else if Under(io.replies, cid) == None then [ReplyRejected(link.addr)] else []);
    SkipRest(io.replies, 0);
  }

  /** One thing sent, and at most one other event, that is not. */
  lemma OneSend(before: seq<Event>, after: seq<Event>, e: Event, tail: seq<Event>)
    requires after == before + [e] + tail && e.Sent? && |tail| <= 1 && (tail != [] ==> !tail[0].Sent?)
    ensures Sends(after[|before|..]) == 1 && after[|before|..] == [e] + tail
  {
    assert after[|before|..] == [e] + tail;
    assert [e][..0] == [] && Sends([e]) == 1;
    if tail != [] {
      assert ([e] + tail)[..1] == [e];
    } else {
      assert [e] + tail == [e];
    }
  }

  lemma NegotiateSilent(lib: Library, io: Io, addr: Bytes, mechanism: Bytes)
    ensures Silent(io, Negotiate(lib, io, addr, mechanism).0)
  {
    hide Exchange, Records, Silent;
    OpenersAreNotRecords();
    if io.dials != [] && io.dials[0] {
      var io0 := Log(io.(dials := Rest(io.dials)), Dialed(addr));
      LogSilent(io, io0, Dialed(addr));
      ExchangeSilent(io0, Link(addr, 0), API_VERSIONS, 0, KROXY, []);
      var (io1, link1, versions) := Exchange(io0, Link(addr, 0), API_VERSIONS, 0, KROXY, []);
      SilentThen(io, io0, io1);
      if versions.Some? {
        ExchangeSilent(io1, link1, SASL_HANDSHAKE, 1, KROXY, mechanism);
        SilentThen(io, io1, Exchange(io1, link1, SASL_HANDSHAKE, 1, KROXY, mechanism).0);
      }
    } else {
      LogSilent(io, io.(dials := Rest(io.dials)), Dialed(addr));
    }
  }

  lemma LogSilent(io: Io, io': Io, e: Event)
    requires io'.replies == io.replies
    requires io'.trace == io.trace || (io'.trace == io.trace + [e] && !e.Sent?)
    ensures Silent(io, io')
  {
    hide Records;
    var news := io'.trace[|io.trace|..];
    assert news == [] || (news == [e] && [e][..0] == []);
    assert Sends(news) == 0;
  }

  lemma RelaySilent(lib: Library, io: Io, link: Link, payload: Bytes)
    ensures Silent(io, Relay(lib, io, link, payload).0)
  {
    hide Exchange, Records, Silent;
    OpenersAreNotRecords();
    ExchangeSilent(io, link, SASL_AUTHENTICATE, 1, KROXY, payload);
    var (io1, _, reply) := Exchange(io, link, SASL_AUTHENTICATE, 1, KROXY, payload);
    if reply.Some? && lib.authReply(reply.value).Some? {
      var verdict := Verdict(link.addr, lib.authReply(reply.value).value);
      LogSilent(io1, Log(io1, verdict), verdict);
      SilentThen(io, io1, Log(io1, verdict));
    }
  }

  lemma DialPlainSilent(lib: Library, io: Io, addr: Bytes, username: Bytes, password: Bytes)
    ensures Silent(io, DialPlain(lib, io, addr, username, password).0)
  {
    hide Negotiate, Relay, Silent, UpstreamPlain;
    NegotiateSilent(lib, io, addr, PLAIN);
    var (io1, link) := Negotiate(lib, io, addr, PLAIN);
    if link.Some? {
      RelaySilent(lib, io1, link.value, UpstreamPlain(username, password));
      SilentThen(io, io1, Relay(lib, io1, link.value, UpstreamPlain(username, password)).0);
    }
  }

  lemma {:induction false} ScramRoundsSilent(
      lib: Library, io: Io, link: Link, m: Bytes, user: Bytes, pass: Bytes, heard: seq<Bytes>, msg: Bytes)
    ensures Silent(io, ScramRounds(lib, io, link, m, user, pass, heard, msg).0)
    decreases |io.replies|
  {
    hide Relay, Silent;
    RelaySilent(lib, io, link, msg);
    var (io1, link1, reply) := Relay(lib, io, link, msg);
    if reply.Some? && reply.value.code == 0 {
      var heard1 := heard + [reply.value.payload];
      var step := lib.scramNext(m, user, pass, heard1);
      if step.Some? {
        var (done, next) := step.value;
        if !done {
          ScramRoundsSilent(lib, io1, link1, m, user, pass, heard1, next);
          SilentThen(io, io1, ScramRounds(lib, io1, link1, m, user, pass, heard1, next).0);
        } else if next == [] {
          DoneSilent(io, io1, link.addr);
        } else {
          RelaySilent(lib, io1, link1, next);
          var (io2, _, _) := Relay(lib, io1, link1, next);
          SilentThen(io, io1, io2);
          DoneSilent(io, io2, link.addr);
        }
      }
    }
  }

  lemma DoneSilent(io: Io, io': Io, addr: Bytes)
    requires Silent(io, io')
    ensures Silent(io, Log(io', SessionDone(addr)))
  {
    hide Silent;
    LogSilent(io', Log(io', SessionDone(addr)), SessionDone(addr));
    SilentThen(io, io', Log(io', SessionDone(addr)));
  }

  lemma DialScramSilent(lib: Library, io: Io, addr: Bytes, m: Bytes, user: Bytes, pass: Bytes)
    ensures Silent(io, DialScram(lib, io, addr, m, user, pass).0)
  {
    hide Negotiate, ScramRounds, Silent, IsScram;
    LogSilent(io, io, Dialed(addr));
    NegotiateSilent(lib, io, addr, m);
    var (io1, link) := Negotiate(lib, io, addr, m);
    if link.Some? && lib.scramFirst(m, user, pass).Some? {
      var first := lib.scramFirst(m, user, pass).value;
      ScramRoundsSilent(lib, io1, link.value, m, user, pass, [], first);
      SilentThen(io, io1, ScramRounds(lib, io1, link.value, m, user, pass, [], first).0);
    }
  }

  lemma EnsureSilent(lib: Library, cfg: Config, s: State, io: Io)
    ensures Silent(io, EnsureUpstream(lib, cfg, s, io).io)
  {
    hide DialPlain, DialScram, Silent;
    LogSilent(io, io, Dialed([]));
    DialPlainSilent(lib, io, s.tenant.upstream, s.tenant.id, s.password);
    DialScramSilent(lib, io, s.tenant.upstream, cfg.upstreamMechanism, s.tenant.id, s.password);
  }

  /** Answering a request of kroxy's own. */
  lemma RespondSilent(lib: Library, s: State, io: Io, io': Io, h: Header.RequestHeader, reply: Reply)
    requires Silent(io, io')
    ensures Silent(io, Respond(lib, s, io', h, reply).io)
  {
    hide Silent, ResponseFrame;
    var r := Respond(lib, s, io', h, reply).io;
    LogSilent(io', r, Answered(ResponseFrame(h, lib.encode(h.version, reply))));
    SilentThen(io, io', r);
  }

  lemma HandshakeSilent(lib: Library, s: State, io: Io, h: Header.RequestHeader, body: Bytes)
    requires Linked(s)
    ensures Silent(io, Handshake(lib, s, io, h, body).io)
  {
    hide Silent, Respond, IsScram;
    LogSilent(io, io, Dialed([]));
    RespondSilent(lib, s, io, io, h, HandshakeReply(ILLEGAL_STATE));
    RespondSilent(lib, s, io, io, h, HandshakeReply(UNSUPPORTED_MECHANISM));
    var m := lib.handshakeMechanism(h.version, body);
    if m.Some? {
      var accepted := HandshakeAccepted(m.value);
      LogSilent(io, Log(io, accepted), accepted);
      RespondSilent(lib, s.(mechanism := m.value, phase := AwaitAuth), io, Log(io, accepted), h, HandshakeReply(0));
    }
  }

  lemma AuthPlainSilent(lib: Library, tenants: Catalogue, s: State, io: Io, h: Header.RequestHeader, body: Bytes)
    requires Linked(s)
    ensures Silent(io, AuthPlain(lib, tenants, s, io, h, body).io)
  {
    hide Silent, Respond, Plain, Find;
    LogSilent(io, io, Dialed([]));
    var payload := lib.authPayload(h.version, body);
    if payload.Some? {
      RespondSilent(lib, s, io, io, h, Refuse(ILLEGAL_STATE, "SASL handshake required"));
      RespondSilent(lib, s, io, io, h, Refuse(AUTH_FAILED, "malformed PLAIN payload"));
      if Plain(payload.value).Some? {
        var creds := Plain(payload.value).value;
        var found := Find(tenants, creds.username);
        var io1 := Log(io, Looked(creds.username, found));
        LogSilent(io, io1, Looked(creds.username, found));
        RespondSilent(lib, s, io, io1, h, Refuse(AUTH_FAILED, "authentication failed"));
        if found.Some? {
          LogSilent(io1, Log(io1, PlainAccepted(payload.value)), PlainAccepted(payload.value));
          SilentThen(io, io1, Log(io1, PlainAccepted(payload.value)));
          RespondSilent(lib, s.(tenant := found.value, password := creds.password, phase := Authenticated),
                        io, Log(io1, PlainAccepted(payload.value)), h, AuthenticateReply(AuthReply([], 0, [])));
        }
      }
    }
  }

  lemma RelayRoundSilent(lib: Library, s: State, io: Io, h: Header.RequestHeader, payload: Bytes)
    requires s.upstream.Some?
    ensures Silent(io, RelayRound(lib, s, io, h, payload).io)
  {
    hide Silent, Respond, Relay;
    RelaySilent(lib, io, s.upstream.value, payload);
    var (io1, link, reply) := Relay(lib, io, s.upstream.value, payload);
    var s1 := s.(upstream := Some(link));
    if reply.Some? {
      var rounds := s.rounds + 1;
      RespondSilent(lib, s1, io, io1, h, AuthenticateReply(reply.value));
      RespondSilent(lib, s1.(rounds := rounds, phase := if rounds >= 2 then Authenticated else s.phase),
                    io, io1, h, AuthenticateReply(reply.value));
    }
  }

  lemma AuthScramSilent(lib: Library, tenants: Catalogue, s: State, io: Io, h: Header.RequestHeader, body: Bytes)
    requires Linked(s)
    ensures Silent(io, AuthScram(lib, tenants, s, io, h, body).io)
  {
    hide Silent, Respond, RelayRound, ParseClientFirst, Find, Negotiate, IsScram;
    LogSilent(io, io, Dialed([]));
    var payload := lib.authPayload(h.version, body);
    if payload.Some? {
      RespondSilent(lib, s, io, io, h, Refuse(ILLEGAL_STATE, "SASL handshake required"));
      RespondSilent(lib, s, io, io, h, Refuse(AUTH_FAILED, "malformed SCRAM client-first-message"));
      if s.phase == RelayInFlight {
        RelayRoundSilent(lib, s, io, h, payload.value);
      } else if ParseClientFirst(payload.value).Some? {
        var name := ParseClientFirst(payload.value).value.name;
        FirstMessageSilent(lib, tenants, s, io, h, payload.value, name);
      }
    }
  }

  /** What follows the parsing of a SCRAM client's first message. */
  lemma FirstMessageSilent(
      lib: Library, tenants: Catalogue, s: State, io: Io, h: Header.RequestHeader, payload: Bytes, name: Bytes)
    ensures var found := Find(tenants, name);
            var io1 := Log(io, Looked(name, found));
            && Silent(io, Respond(lib, s, io1, h, Refuse(AUTH_FAILED, "authentication failed")).io)
            && (found.Some? ==>
                var s1 := s.(tenant := found.value);
                var (io2, link) := DialRelay(lib, io1, found.value.upstream, s.mechanism);
                && Silent(io, Respond(lib, s1, io2, h, Refuse(AUTH_FAILED, "upstream unavailable")).io)
                && (link.Some? ==>
                    Silent(io, RelayRound(lib, s1.(upstream := link, phase := RelayInFlight), io2, h, payload).io)))
  {
    hide Silent, Respond, RelayRound, Negotiate, IsScram, Find, Refuse;
    var found := Find(tenants, name);
    var io1 := Log(io, Looked(name, found));
    LogSilent(io, io1, Looked(name, found));
    LogSilent(io1, io1, Looked(name, found));
    RespondSilent(lib, s, io, io1, h, Refuse(AUTH_FAILED, "authentication failed"));
    if found.Some? {
      var s1 := s.(tenant := found.value);
      NegotiateSilent(lib, io1, found.value.upstream, s.mechanism);
      var (io2, link) := DialRelay(lib, io1, found.value.upstream, s.mechanism);
      SilentThen(io, io1, io2);
      RespondSilent(lib, s1, io, io2, h, Refuse(AUTH_FAILED, "upstream unavailable"));
      if link.Some? {
        var s2 := s1.(upstream := link, phase := RelayInFlight);
        RelayRoundSilent(lib, s2, io2, h, payload);
        SilentThen(io, io2, RelayRound(lib, s2, io2, h, payload).io);
      }
    }
  }

  lemma PassedThroughSilent(s: State, io: Io, h: Header.RequestHeader, frame: Bytes)
    requires s.upstream.Some? && !Records(h.key)
    ensures Silent(io, PassedThrough(s, io, h, frame).io)
  {
    hide Records, Passthrough, Under, NextId, Silent, Sends;
    LogSilent(io, io, Dialed([]));
    if |frame| >= 8 {
      PassthroughIs(io, s.upstream.value, h.key, frame, h.correlationId);
      PassthroughSilent(io, s.upstream.value, h, frame);
      var (io1, _, reply) := Passthrough(io, s.upstream.value, h.key, frame, h.correlationId);
      AnswerSilent(s, io, io1, if reply.Some? then reply.value else []);
    } else {
      PassthroughShort(io, s.upstream.value, h.key, frame, h.correlationId);
    }
  }

  lemma PassthroughShort(io: Io, link: Link, key: int16, frame: Bytes, clientId: int32)
    requires |frame| < 8
    ensures Passthrough(io, link, key, frame, clientId) == (io, link, None)
  {}

  lemma PassthroughSilent(io: Io, link: Link, h: Header.RequestHeader, frame: Bytes)
    requires |frame| >= 8 && !Records(h.key)
    ensures Silent(io, Passthrough(io, link, h.key, frame, h.correlationId).0)
  {
    hide Records, Passthrough, Under, NextId, WithId, Sends;
    PassthroughIs(io, link, h.key, frame, h.correlationId);
    var io' := Passthrough(io, link, h.key, frame, h.correlationId).0;
    var cid := NextId(link.lastId);
    var got := Under(io.replies, cid);
    OneSend(io.trace, io'.trace, Upstream.Sent(link.addr, h.key, cid, Copied(WithId(frame, cid))),
            [if got.Some? then Replied(link.addr, got.value[4..]) else ReplyRejected(link.addr)]);
    SkipRest(io.replies, 0);
  }

  lemma AnswerSilent(s: State, io: Io, io': Io, frame: Bytes)
    requires Silent(io, io')
    ensures forall s' :: Silent(io, Answer(s', io', frame).io)
  {
    hide Silent;
    var r := Answer(s, io', frame).io;
    LogSilent(io', r, Answered(frame));
    SilentThen(io, io', r);
  }

  lemma RewrittenSilent(lib: Library, s: State, io: Io, h: Header.RequestHeader, body: Bytes)
    requires s.upstream.Some? && !Records(h.key)
    ensures Silent(io, Rewritten(lib, s, io, h, body).io)
  {
    hide Silent, Records, Exchange, ResponseFrame;
    LogSilent(io, io, Dialed([]));
    var request := lib.rewriteIn(h.key, h.version, s.tenant.topicPrefix, body);
    if request.Some? {
      ExchangeSilent(io, s.upstream.value, h.key, h.version, h.clientId, request.value);
      var (io1, _, reply) := Exchange(io, s.upstream.value, h.key, h.version, h.clientId, request.value);
      if reply.Some? {
        var response := lib.rewriteOut(h.key, h.version, s.tenant.topicPrefix, reply.value);
        AnswerSilent(s, io, io1, if response.Some? then ResponseFrame(h, response.value) else []);
      }
    }
  }

  // ------------------------------------------------------------- What is forwarded

  /** Event k of `io'` is the one thing sent, after `io`, that names records: the request in
      `frame`, rewritten. It is answered exactly if the broker's next frame is a whole
      response to it that can be rewritten, and the client can be written to; and then with
      that response, rewritten, right behind it. */
  predicate Ships(lib: Library, prefix: Bytes, frame: Bytes, io: Io, io': Io, ok: bool, k: nat) {
    var before, after := io.trace, io'.trace;
    && before <= after && |before| <= k < |after|
    && (forall j | |before| <= j < |after| && j != k :: after[j].Sent? ==> !Records(after[j].key))
    && HeaderOf(frame).Some?
    && var h := HeaderOf(frame).value;
       && Records(h.key) && after[k].Sent? && after[k].key == h.key
       && after[k].out.Typed? && after[k].out.version == h.version
       && lib.rewriteIn(h.key, h.version, prefix, frame[h.size..]) == Some(after[k].out.body)
       && var content := Content(Skip(io.replies, Sends(after[|before|..k])), h.key, h.version, after[k].cid);
          && (ok <==>
              && content.Some? && lib.rewriteOut(h.key, h.version, prefix, content.value).Some?
              && io.writes != [] && io.writes[0])
          && (ok ==>
              && |after| == k + 3 && after[k + 1] == Replied(after[k].addr, content.value)
              && after[k + 2]
                 == Answered(ResponseTo(h) + lib.rewriteOut(h.key, h.version, prefix, content.value).value))
  }

  lemma RewrittenShips(lib: Library, s: State, io: Io, h: Header.RequestHeader, frame: Bytes)
    requires s.upstream.Some? && HeaderOf(frame) == Some(h) && Records(h.key)
    requires lib.rewriteIn(h.key, h.version, s.tenant.topicPrefix, frame[h.size..]).Some?
    ensures var r := Rewritten(lib, s, io, h, frame[h.size..]);
            && Ships(lib, s.tenant.topicPrefix, frame, io, r.io, r.ok, |io.trace|)
            && r.state.upstream.Some? && r.io.trace[|io.trace|].addr == r.state.upstream.value.addr
  {
    hide Records, Exchange, ResponseFrame, HeaderOf, Content, Under, NextId, ResponseTo;
    var p, link := s.tenant.topicPrefix, s.upstream.value;
    var request := lib.rewriteIn(h.key, h.version, p, frame[h.size..]).value;
    ExchangeIs(io, link, h.key, h.version, h.clientId, request);
    var (io1, _, reply) := Exchange(io, link, h.key, h.version, h.clientId, request);
    var r := Rewritten(lib, s, io, h, frame[h.size..]);
    assert r.io.trace[|io.trace|..|io.trace|] == [] && Skip(io.replies, 0) == io.replies;
    if reply.Some? && lib.rewriteOut(h.key, h.version, p, reply.value).Some? {
      var response := lib.rewriteOut(h.key, h.version, p, reply.value).value;
      assert ResponseFrame(h, response) == ResponseTo(h) + response by { ResponseToIs(h, response); }
    }
  }

  lemma ResponseToIs(h: Header.RequestHeader, body: Bytes)
    ensures ResponseFrame(h, body) == ResponseTo(h) + body
  {
    ResponseLayout(h, body);
  }

  /** Something silent before it does not change that. */
  lemma ShipsAfter(lib: Library, prefix: Bytes, frame: Bytes, a: Io, b: Io, c: Io, ok: bool, k: nat)
    requires Silent(a, b) && a.writes == b.writes && Ships(lib, prefix, frame, b, c, ok, k)
    ensures Ships(lib, prefix, frame, a, c, ok, k)
  {
    hide Records, HeaderOf, Content, Sends, Skip, ResponseTo;
    var after := c.trace;
    assert forall j | |a.trace| <= j < |b.trace| :: after[j] == b.trace[j];
    var n := |b.trace| - |a.trace|;
    SendsSplit(after[|a.trace|..k], n);
    assert after[|a.trace|..k][..n] == b.trace[|a.trace|..];
    assert after[|a.trace|..k][n..] == after[|b.trace|..k];
    SkipMore(a.replies, Sends(b.trace[|a.trace|..]), Sends(after[|b.trace|..k]));
  }

  /** One request: it ships just itself, if the client is authenticated, the request names
      records and can be rewritten, and the broker can be reached; or else it sends nothing
      that names records. If it names records it is not answered without being shipped. */
  lemma ForwardShips(lib: Library, cfg: Config, s: State, io: Io, h: Header.RequestHeader, frame: Bytes)
      returns (k: nat)
    requires Linked(s) && HeaderOf(frame) == Some(h) && !OpensConnection(h.key)
    ensures var r := Connection.Forward(lib, cfg, s, io, h, frame, frame[h.size..]);
            if && s.phase == Authenticated && Records(h.key) && EnsureUpstream(lib, cfg, s, io).ok
               && lib.rewriteIn(h.key, h.version, s.tenant.topicPrefix, frame[h.size..]).Some?
            then && Ships(lib, s.tenant.topicPrefix, frame, io, r.io, r.ok, k)
                 && r.state.upstream.Some? && r.io.trace[k].addr == r.state.upstream.value.addr
            else Silent(io, r.io) && (r.ok ==> !Records(h.key))
  {
    hide Silent, Ships, EnsureUpstream, Rewritten, PassedThrough, HeaderOf, Records, HasRewriter;
    k := 0;
    LogSilent(io, io, Dialed([]));
    if s.phase == Authenticated {
      EnsureSilent(lib, cfg, s, io);
      EnsureTenant(lib, cfg, s, io);
      EnsureWrites(lib, cfg, s, io);
      var dialed := EnsureUpstream(lib, cfg, s, io);
      var body := frame[h.size..];
      if dialed.ok {
        if Records(h.key) {
          RecordsAreRewritten(h.key);
          if lib.rewriteIn(h.key, h.version, s.tenant.topicPrefix, body).Some? {
            RewrittenShips(lib, dialed.state, dialed.io, h, frame);
            var r := Rewritten(lib, dialed.state, dialed.io, h, body);
            k := |dialed.io.trace|;
            ShipsAfter(lib, s.tenant.topicPrefix, frame, io, dialed.io, r.io, r.ok, k);
          } else {
            RewrittenFails(lib, dialed.state, dialed.io, h, body);
          }
        } else {
          RewrittenSilent(lib, dialed.state, dialed.io, h, body);
          PassedThroughSilent(dialed.state, dialed.io, h, frame);
          SilentThen(io, dialed.io, Rewritten(lib, dialed.state, dialed.io, h, body).io);
          SilentThen(io, dialed.io, PassedThrough(dialed.state, dialed.io, h, frame).io);
        }
      }
    }
  }

  lemma RewrittenFails(lib: Library, s: State, io: Io, h: Header.RequestHeader, body: Bytes)
    requires s.upstream.Some? && lib.rewriteIn(h.key, h.version, s.tenant.topicPrefix, body) == None
    ensures Rewritten(lib, s, io, h, body) == Outcome(s, io, false)
  {}

  /** The request in `frame` is one that ships. */
  ghost predicate MayShip(lib: Library, cfg: Config, s: State, io: Io, frame: Bytes) {
    && s.phase == Authenticated && HeaderOf(frame).Some?
    && var h := HeaderOf(frame).value;
       && Records(h.key)
       && lib.rewriteIn(h.key, h.version, s.tenant.topicPrefix, frame[h.size..]).Some?
       && exists n, cid :: Reaches(lib, cfg, s, io, n, cid)
  }

  lemma ServeShips(lib: Library, cfg: Config, tenants: Catalogue, s: State, io: Io, frame: Bytes) returns (k: nat)
    requires Linked(s)
    ensures var r := Connection.Serve(lib, cfg, tenants, s, io, frame);
            if MayShip(lib, cfg, s, io, frame)
            then && Ships(lib, s.tenant.topicPrefix, frame, io, r.io, r.ok, k)
                 && r.state.upstream.Some? && r.io.trace[k].addr == r.state.upstream.value.addr
            else Silent(io, r.io) && (r.ok ==> HeaderOf(frame).Some? && !Records(HeaderOf(frame).value.key))
  {
    hide Silent, Ships, Respond, Handshake, AuthPlain, AuthScram, Connection.Forward, HeaderOf, Records, IsScram,
         HeaderPanics, EnsureUpstream, Reaches;
    OpenersAreNotRecords();
    k := 0;
    var io1 := Log(io, Received(frame));
    LogSilent(io, io1, Received(frame));
    LogSilent(io1, io1, Received(frame));
    ReachesIff(lib, cfg, s, io, io1);
    if HeaderOf(frame) == None {
      LogSilent(io, Connection.Serve(lib, cfg, tenants, s, io, frame).io, Received(frame));
    } else {
      var h := HeaderOf(frame).value;
      var body := frame[h.size..];
      var r := Connection.Serve(lib, cfg, tenants, s, io, frame);
      if OpensConnection(h.key) {
        RespondSilent(lib, s, io1, io1, h, ApiVersionsReply);
        HandshakeSilent(lib, s, io1, h, body);
        AuthPlainSilent(lib, tenants, s, io1, h, body);
        AuthScramSilent(lib, tenants, s, io1, h, body);
        SilentThen(io, io1, r.io);
      } else {
        k := ForwardShips(lib, cfg, s, io1, h, frame);
        if MayShip(lib, cfg, s, io, frame) {
          ShipsAfter(lib, s.tenant.topicPrefix, frame, io, io1, r.io, r.ok, k);
        } else {
          SilentThen(io, io1, r.io);
        }
      }
    }
  }

  /** Whether the broker is reached does not depend on the trace. */
  lemma ReachesIff(lib: Library, cfg: Config, s: State, io: Io, io': Io)
    requires io'.replies == io.replies && io'.dials == io.dials
    ensures (exists n, cid :: Reaches(lib, cfg, s, io, n, cid)) <==> EnsureUpstream(lib, cfg, s, io').ok
    ensures forall n, cid :: Reaches(lib, cfg, s, io, n, cid) <==> Reaches(lib, cfg, s, io', n, cid)
  {
    hide EnsureUpstream, Finishes, ApprovesAll, VerdictIn, Content, IsScram;
    assert forall n, cid :: Reaches(lib, cfg, s, io, n, cid) <==> Reaches(lib, cfg, s, io', n, cid);
    if EnsureUpstream(lib, cfg, s, io').ok {
      var n, cid := ReachesIf(lib, cfg, s, io');
    }
    forall n, cid | Reaches(lib, cfg, s, io', n, cid) ensures EnsureUpstream(lib, cfg, s, io').ok {
      ReachesThen(lib, cfg, s, io', n, cid);
    }
  }
}
