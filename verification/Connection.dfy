/** One client connection: the SASL state machine and the request dispatch of
    proxy/conn.go, with the generic rewrite handler of proxy/rewrite.go. */
module Connection {
  import opened Bytes
  import opened Keys
  import opened Auth
  import opened Framing
  import opened Header
  import opened Resolver
  import opened Upstream

  datatype Phase = AwaitHandshake | AwaitAuth | RelayInFlight | Authenticated

  datatype State = State(
    phase: Phase, mechanism: Bytes, tenant: Tenant, password: Bytes, upstream: Option<Link>, rounds: nat)

  /** A relay in flight has an upstream to relay to. */
  predicate Linked(s: State) { s.phase == RelayInFlight ==> s.upstream.Some? }

  const NO_TENANT := Tenant([], [], [])
  const FRESH := State(AwaitHandshake, [], NO_TENANT, [], None, 0)

  /** The configured mechanism for PLAIN clients of SCRAM brokers, if any. */
  datatype Config = Config(upstreamMechanism: Bytes)

  const AUTH_FAILED: int16 := 58
  const UNSUPPORTED_MECHANISM: int16 := 33
  const ILLEGAL_STATE: int16 := 34

  /** What handling one request comes to; `ok` is false when it ends the connection. */
  datatype Outcome = Outcome(state: State, io: Io, ok: bool)

  // ------------------------------------------------------------------ On values

  /** EncodeResponse: a response header in front of an encoded body. */
  function ResponseFrame(h: RequestHeader, body: Bytes): Bytes {
    PutInt32(h.correlationId) + (if ResponseHeaderVersion(h.key, h.version) >= 1 then [0] else []) + body
  }

  /** A client that reads a response to its request out of that frame gets the body. */
  lemma ResponseReads(h: RequestHeader, body: Bytes, rest: seq<ReadResult>)
    ensures ResponseFrame(h, body) == ResponseHeader(h.key, h.version, h.correlationId) + body
    ensures Content([Frame(ResponseFrame(h, body))] + rest, h.key, h.version, h.correlationId) == Some(body)
  {
    hide PutInt32, IsFlexibleRequest, ResponseHeader, Content;
    assert ResponseFrame(h, body) == ResponseHeader(h.key, h.version, h.correlationId) + body by {
      ResponseLayout(h, body);
    }
    ContentOfResponse([Frame(ResponseFrame(h, body))] + rest, h.key, h.version, h.correlationId, body);
  }

  lemma ResponseLayout(h: RequestHeader, body: Bytes)
    ensures ResponseFrame(h, body) == ResponseHeader(h.key, h.version, h.correlationId) + body
  {
    hide PutInt32, IsFlexibleRequest;
  }

  /** Write a frame to the client, which is the last thing any request does. */
  function Answer(s: State, io: Io, frame: Bytes): (r: Outcome)
    ensures Extends(io, r.io)
  {
    var io' := io.(writes := Rest(io.writes));
    if io.writes != [] && io.writes[0] then Outcome(s, Log(io', Answered(frame)), true) else Outcome(s, io', false)
  }

  function Respond(lib: Library, s: State, io: Io, h: RequestHeader, reply: Reply): (r: Outcome)
    ensures Extends(io, r.io)
  {
    Answer(s, io, ResponseFrame(h, lib.encode(h.version, reply)))
  }

  function Refuse(code: int16, message: string): Reply { AuthenticateReply(AuthReply([], code, Ascii(message))) }

  function Handshake(lib: Library, s: State, io: Io, h: RequestHeader, body: Bytes): (r: Outcome)
    requires Linked(s)
    ensures Linked(r.state)
    ensures Extends(io, r.io)
  {
    match lib.handshakeMechanism(h.version, body)
    case None => Outcome(s, io, false)
    case Some(m) =>
      if s.phase != AwaitHandshake then Respond(lib, s, io, h, HandshakeReply(ILLEGAL_STATE))
      else if m != PLAIN && !IsScram(m) then Respond(lib, s, io, h, HandshakeReply(UNSUPPORTED_MECHANISM))
      else Respond(lib, s.(mechanism := m, phase := AwaitAuth), Log(io, HandshakeAccepted(m)), h, HandshakeReply(0))
  }

  function AuthPlain(lib: Library, tenants: Catalogue, s: State, io: Io, h: RequestHeader, body: Bytes): (r: Outcome)
    requires Linked(s)
    ensures Linked(r.state)
    ensures Extends(io, r.io)
  {
    match lib.authPayload(h.version, body)
    case None => Outcome(s, io, false)
    case Some(payload) =>
      if s.phase != AwaitAuth then Respond(lib, s, io, h, Refuse(ILLEGAL_STATE, "SASL handshake required"))
      else match Plain(payload)
           case None => Respond(lib, s, io, h, Refuse(AUTH_FAILED, "malformed PLAIN payload"))
           case Some(creds) =>
             var found := Find(tenants, creds.username);
             var io1 := Log(io, Looked(creds.username, found));
             if found == None then Respond(lib, s, io1, h, Refuse(AUTH_FAILED, "authentication failed"))
             else Respond(lib, s.(tenant := found.value, password := creds.password, phase := Authenticated),
                          Log(io1, PlainAccepted(payload)), h, AuthenticateReply(AuthReply([], 0, [])))
  }

  /** One relayed round, on a connection that has an upstream. */
  function RelayRound(lib: Library, s: State, io: Io, h: RequestHeader, payload: Bytes): (r: Outcome)
    requires s.upstream.Some?
    ensures r.state.upstream.Some?
    ensures Extends(io, r.io)
  {
    hide Relay;
    var (io1, link, reply) := Relay(lib, io, s.upstream.value, payload);
    var s1 := s.(upstream := Some(link));
    if reply == None then Outcome(s1, io1, false)
    else if reply.value.code != 0 then Respond(lib, s1, io1, h, AuthenticateReply(reply.value))
    else
      var rounds := s.rounds + 1;
      Respond(lib, s1.(rounds := rounds, phase := if rounds >= 2 then Authenticated else s.phase),
              io1, h, AuthenticateReply(reply.value))
  }

  function AuthScram(lib: Library, tenants: Catalogue, s: State, io: Io, h: RequestHeader, body: Bytes): (r: Outcome)
    requires Linked(s)
    ensures Linked(r.state)
    ensures Extends(io, r.io)
  {
    hide ParseClientFirst, DialRelay, RelayRound;
    match lib.authPayload(h.version, body)
    case None => Outcome(s, io, false)
    case Some(payload) =>
      if s.phase == RelayInFlight then RelayRound(lib, s, io, h, payload)
      else if s.phase != AwaitAuth then Respond(lib, s, io, h, Refuse(ILLEGAL_STATE, "SASL handshake required"))
      else match ParseClientFirst(payload)
           case None => Respond(lib, s, io, h, Refuse(AUTH_FAILED, "malformed SCRAM client-first-message"))
           case Some(first) =>
             var found := Find(tenants, first.name);
             var io1 := Log(io, Looked(first.name, found));
             if found == None then Respond(lib, s, io1, h, Refuse(AUTH_FAILED, "authentication failed")) else
               var s1 := s.(tenant := found.value);
               var (io2, link) := DialRelay(lib, io1, found.value.upstream, s.mechanism);
               if link == None then Respond(lib, s1, io2, h, Refuse(AUTH_FAILED, "upstream unavailable"))
               else RelayRound(lib, s1.(upstream := link, phase := RelayInFlight), io2, h, payload)
  }

  predicate Translates(cfg: Config, s: State) {
    s.mechanism == PLAIN && IsScram(cfg.upstreamMechanism)
  }

  /** ensureUpstream: dial on first use, with the credentials the client gave. */
  function EnsureUpstream(lib: Library, cfg: Config, s: State, io: Io): (r: Outcome)
    ensures Extends(io, r.io)
  {
    if s.upstream.Some? then Outcome(s, io, true) else
      var (io1, link) :=
        if Translates(cfg, s) then DialScram(lib, io, s.tenant.upstream, cfg.upstreamMechanism, s.tenant.id, s.password)
        else DialPlain(lib, io, s.tenant.upstream, s.tenant.id, s.password);
      Outcome(s.(upstream := link), io1, link.Some?)
  }

  /** Decode and prefix, exchange, decode and strip, answer. */
  function Rewritten(lib: Library, s: State, io: Io, h: RequestHeader, body: Bytes): (r: Outcome)
    requires s.upstream.Some?
    ensures Extends(io, r.io)
  {
    match lib.rewriteIn(h.key, h.version, s.tenant.topicPrefix, body)
    case None => Outcome(s, io, false)
    case Some(request) =>
      var (io1, link, reply) := Exchange(io, s.upstream.value, h.key, h.version, h.clientId, request);
      var s1 := s.(upstream := Some(link));
      if reply == None then Outcome(s1, io1, false) else
        match lib.rewriteOut(h.key, h.version, s.tenant.topicPrefix, reply.value)
        case None => Outcome(s1, io1, false)
        case Some(response) => Answer(s1, io1, ResponseFrame(h, response))
  }

  function PassedThrough(s: State, io: Io, h: RequestHeader, frame: Bytes): (r: Outcome)
    requires s.upstream.Some?
    ensures Extends(io, r.io)
  {
    var (io1, link, reply) := Passthrough(io, s.upstream.value, h.key, frame, h.correlationId);
    var s1 := s.(upstream := Some(link));
    if reply == None then Outcome(s1, io1, false) else Answer(s1, io1, reply.value)
  }

  function Forward(lib: Library, cfg: Config, s: State, io: Io, h: RequestHeader, frame: Bytes, body: Bytes)
    : (r: Outcome)
    requires Linked(s)
    ensures Linked(r.state)
    ensures Extends(io, r.io)
  {
    if s.phase != Authenticated then Outcome(s, io, false) else
      var dialed := EnsureUpstream(lib, cfg, s, io);
      if !dialed.ok then dialed
      else if HasRewriter(h.key) then Rewritten(lib, dialed.state, dialed.io, h, body)
      else PassedThrough(dialed.state, dialed.io, h, frame)
  }

  function Dispatch(lib: Library, cfg: Config, tenants: Catalogue, s: State, io: Io, h: RequestHeader,
                    frame: Bytes, body: Bytes): (r: Outcome)
    requires Linked(s)
    ensures Linked(r.state)
    ensures Extends(io, r.io)
  {
    hide Handshake, AuthPlain, AuthScram, Forward;
    if h.key == API_VERSIONS then Respond(lib, s, io, h, ApiVersionsReply)
    else if h.key == SASL_HANDSHAKE then Handshake(lib, s, io, h, body)
    else if h.key == SASL_AUTHENTICATE then
      if IsScram(s.mechanism) then AuthScram(lib, tenants, s, io, h, body)
      else AuthPlain(lib, tenants, s, io, h, body)
    else Forward(lib, cfg, s, io, h, frame, body)
  }

  /** The header of a frame, if the parser accepts it and it lies in the frame. */
  function HeaderOf(frame: Bytes): (r: Option<RequestHeader>)
    ensures r.Some? ==> |frame| >= 8 && r.value.correlationId == ToInt32(GetUint32(frame, 4))
    ensures r.Some? ==> 0 <= r.value.size <= |frame|
  {
    var parsed := ParseInt64(frame);
    if parsed.Accepted? && 0 <= parsed.value.size <= |frame| then Some(parsed.value) else None
  }

  /** Parsing the header, or slicing the body off behind it, indexes outside the frame. */
  predicate HeaderPanics(frame: Bytes) {
    var parsed := ParseInt64(frame);
    parsed.Panics? || (parsed.Accepted? && !(0 <= parsed.value.size <= |frame|))
  }

  /** One turn of the serve loop: a frame was read. */
  function Serve(lib: Library, cfg: Config, tenants: Catalogue, s: State, io: Io, frame: Bytes): (r: Outcome)
    requires Linked(s)
    ensures Linked(r.state)
    ensures Extends(io, r.io)
  {
    var io1 := Log(io, Received(frame));
    match HeaderOf(frame)
    case None => Outcome(s, io1.(crashed := io1.crashed || HeaderPanics(frame)), false)
    case Some(h) => Dispatch(lib, cfg, tenants, s, io1, h, frame, frame[h.size..])
  }

  /** The serve loop on a client that will send `data`. */
  function ServeStream(lib: Library, cfg: Config, tenants: Catalogue, s: State, io: Io, data: Bytes): (State, Io)
    requires Linked(s)
    decreases |data|
  {
    match Read(data)
    case (Failed(_), _) => (s, io)
    case (Frame(frame), rest) =>
      var r := Serve(lib, cfg, tenants, s, io, frame);
      if !r.ok then (r.state, r.io)
      else ServeStream(lib, cfg, tenants, r.state, r.io, rest)
  }

  // ------------------------------------------------------------------- The object

  class ClientConn {
    const lib: Library
    const cfg: Config
    const resolver: MemoryResolver
    const net: Network

    var state: Phase
    var clientMechanism: Bytes
    var tenant: Tenant
    var password: Bytes
    var upstream: Conn?
    var scramRoundsCompleted: nat

    function Value(): State
      reads this, upstream
    {
      State(state, clientMechanism, tenant, password,
            if upstream == null then None else Some(upstream.Value()), scramRoundsCompleted)
    }

    ghost predicate Valid()
      reads this, upstream
    {
      && (upstream != null ==> upstream.net == net)
      && (state == RelayInFlight ==> upstream != null)
      && (state == AwaitHandshake || state == AwaitAuth ==> upstream == null)
    }

    constructor (lib: Library, cfg: Config, resolver: MemoryResolver, net: Network)
      ensures Valid() && Value() == FRESH
      ensures this.lib == lib && this.cfg == cfg && this.resolver == resolver && this.net == net
    {
      this.lib, this.cfg, this.resolver, this.net := lib, cfg, resolver, net;
      state, clientMechanism, tenant, password := AwaitHandshake, [], NO_TENANT, [];
      upstream, scramRoundsCompleted := null, 0;
    }

    /** The whole effect of a method is the outcome its specification gives. */
    twostate predicate Becomes(ok: bool, r: Outcome)
      reads this, upstream, net
    {
      && Valid() && r == Outcome(Value(), net.io, ok)
      && (old(upstream) != null ==> upstream == old(upstream))
      && (old(upstream) == null && upstream != null ==> fresh(upstream))
    }

    method WriteFrame(frame: Bytes) returns (ok: bool)
      requires Valid()
      modifies net
      ensures Becomes(ok, Answer(old(Value()), old(net.io), frame))
    {
      ok := net.io.writes != [] && net.io.writes[0];
      net.io := net.io.(writes := Rest(net.io.writes));
      if ok {
        net.Note(Answered(frame));
      }
    }

    method WriteResponse(h: RequestHeader, reply: Reply) returns (ok: bool)
      requires Valid()
      modifies net
      ensures Becomes(ok, Respond(lib, old(Value()), old(net.io), h, reply))
    {
      ok := WriteFrame(ResponseFrame(h, lib.encode(h.version, reply)));
    }

    method HandleSaslHandshake(h: RequestHeader, body: Bytes) returns (ok: bool)
      requires Valid()
      modifies this, net
      ensures Becomes(ok, Handshake(lib, old(Value()), old(net.io), h, body))
    {
      hide Respond;
      var m := lib.handshakeMechanism(h.version, body);
      if m == None {
        return false;
      }
      var code := 0;
      if state != AwaitHandshake {
        code := ILLEGAL_STATE;
      } else if m.value != PLAIN && !IsScram(m.value) {
        code := UNSUPPORTED_MECHANISM;
      } else {
        net.Note(HandshakeAccepted(m.value));
        clientMechanism := m.value;
        state := AwaitAuth;
      }
      ok := WriteResponse(h, HandshakeReply(code));
    }

    method HandleSaslAuthenticatePlain(h: RequestHeader, body: Bytes) returns (ok: bool)
      requires Valid()
      modifies this, net
      ensures Becomes(ok, AuthPlain(lib, old(resolver.tenants), old(Value()), old(net.io), h, body))
    {
      hide Respond, Plain;
      var payload := lib.authPayload(h.version, body);
      if payload == None {
        return false;
      }
      if state != AwaitAuth {
        ok := WriteResponse(h, Refuse(ILLEGAL_STATE, "SASL handshake required"));
        return;
      }
      var creds := ParsePlain(payload.value);
      if creds == None {
        ok := WriteResponse(h, Refuse(AUTH_FAILED, "malformed PLAIN payload"));
        return;
      }
      var found := resolver.Get(creds.value.username);
      net.Note(Looked(creds.value.username, found));
      if found == None {
        ok := WriteResponse(h, Refuse(AUTH_FAILED, "authentication failed"));
        return;
      }
      net.Note(PlainAccepted(payload.value));
      tenant := found.value;
      password := creds.value.password;
      state := Authenticated;
      ok := WriteResponse(h, AuthenticateReply(AuthReply([], 0, [])));
    }

    /** The tail of handleSaslAuthenticateSCRAM, shared by first and later messages. */
    method RelayOneRound(h: RequestHeader, payload: Bytes) returns (ok: bool)
      requires Valid() && upstream != null
      modifies this, net, upstream
      ensures Becomes(ok, RelayRound(lib, old(Value()), old(net.io), h, payload))
      ensures upstream == old(upstream)
    {
      hide Respond, Relay;
      var reply := upstream.RelaySASLAuthenticate(lib, payload);
      if reply == None {
        return false;
      }
      if reply.value.code != 0 {
        ok := WriteResponse(h, AuthenticateReply(reply.value));
        return;
      }
      scramRoundsCompleted := scramRoundsCompleted + 1;
      if scramRoundsCompleted >= 2 {
        state := Authenticated;
      }
      ok := WriteResponse(h, AuthenticateReply(reply.value));
    }

    method HandleSaslAuthenticateSCRAM(h: RequestHeader, body: Bytes) returns (ok: bool)
      requires Valid()
      modifies this, net, upstream
      ensures Becomes(ok, AuthScram(lib, old(resolver.tenants), old(Value()), old(net.io), h, body))
    {
      hide Respond, RelayRound, DialRelay, ParseClientFirst;
      var payload := lib.authPayload(h.version, body);
      if payload == None {
        return false;
      }
      if state != AwaitAuth && state != RelayInFlight {
        ok := WriteResponse(h, Refuse(ILLEGAL_STATE, "SASL handshake required"));
        return;
      }
      if state == AwaitAuth {
        var username := ParseSCRAMClientFirstUsername(payload.value);
        if username == None {
          ok := WriteResponse(h, Refuse(AUTH_FAILED, "malformed SCRAM client-first-message"));
          return;
        }
        var found := resolver.Get(username.value);
        net.Note(Looked(username.value, found));
        if found == None {
          ok := WriteResponse(h, Refuse(AUTH_FAILED, "authentication failed"));
          return;
        }
        tenant := found.value;
        var up := DialForSCRAM(lib, net, tenant.upstream, clientMechanism);
        if up == null {
          ok := WriteResponse(h, Refuse(AUTH_FAILED, "upstream unavailable"));
          return;
        }
        upstream := up;
        state := RelayInFlight;
      }
      ok := RelayOneRound(h, payload.value);
    }

    method Ensure() returns (ok: bool)
      requires Valid() && state == Authenticated
      modifies this, net
      ensures Becomes(ok, EnsureUpstream(lib, cfg, old(Value()), old(net.io)))
      ensures ok ==> upstream != null
      ensures state == Authenticated && tenant == old(tenant)
    {
      hide DialPlain, DialScram;
      if upstream != null {
        return true;
      }
      if clientMechanism == PLAIN && IsScram(cfg.upstreamMechanism) {
        upstream := DialSCRAM(lib, net, tenant.upstream, cfg.upstreamMechanism, tenant.id, password);
      } else {
        upstream := Dial(lib, net, tenant.upstream, tenant.id, password);
      }
      ok := upstream != null;
    }

    method ForwardRewritten(h: RequestHeader, body: Bytes) returns (ok: bool)
      requires Valid() && upstream != null
      modifies this, net, upstream
      ensures Becomes(ok, Rewritten(lib, old(Value()), old(net.io), h, body)) && upstream == old(upstream)
    {
      hide Exchange, Answer;
      var request := lib.rewriteIn(h.key, h.version, tenant.topicPrefix, body);
      if request == None {
        return false;
      }
      var reply := upstream.RoundTripRequest(h.key, h.version, h.clientId, request.value);
      if reply == None {
        return false;
      }
      var response := lib.rewriteOut(h.key, h.version, tenant.topicPrefix, reply.value);
      if response == None {
        return false;
      }
      ok := WriteFrame(ResponseFrame(h, response.value));
    }

    method ForwardPassthrough(h: RequestHeader, frame: Bytes) returns (ok: bool)
      requires Valid() && upstream != null
      modifies this, net, upstream
      ensures Becomes(ok, PassedThrough(old(Value()), old(net.io), h, frame)) && upstream == old(upstream)
    {
      hide Passthrough, Answer;
      var reply := upstream.RoundTrip(h.key, frame, h.correlationId);
      if reply == None {
        return false;
      }
      ok := WriteFrame(reply.value);
    }

    method ForwardRequest(h: RequestHeader, frame: Bytes, body: Bytes) returns (ok: bool)
      requires Valid()
      modifies this, net, upstream
      ensures Becomes(ok, Forward(lib, cfg, old(Value()), old(net.io), h, frame, body))
    {
      hide EnsureUpstream, Rewritten, PassedThrough, HasRewriter;
      if state != Authenticated {
        return false;
      }
      ok := Ensure();
      if !ok {
        return;
      }
      if HasRewriter(h.key) {
        ok := ForwardRewritten(h, body);
      } else {
        ok := ForwardPassthrough(h, frame);
      }
    }

    method DispatchRequest(h: RequestHeader, frame: Bytes, body: Bytes) returns (ok: bool)
      requires Valid()
      modifies this, net, upstream
      ensures Becomes(ok, Dispatch(lib, cfg, old(resolver.tenants), old(Value()), old(net.io), h, frame, body))
    {
      hide Respond, Handshake, AuthPlain, AuthScram, Forward, IsScram;
      if h.key == API_VERSIONS {
        ok := WriteResponse(h, ApiVersionsReply);
      } else if h.key == SASL_HANDSHAKE {
        ok := HandleSaslHandshake(h, body);
      } else if h.key == SASL_AUTHENTICATE {
        if IsScram(clientMechanism) {
          ok := HandleSaslAuthenticateSCRAM(h, body);
        } else {
          ok := HandleSaslAuthenticatePlain(h, body);
        }
      } else {
        ok := ForwardRequest(h, frame, body);
      }
    }

    /** One turn of the serve loop. */
    method ServeFrame(frame: Bytes) returns (ok: bool)
      requires Valid()
      modifies this, net, upstream
      ensures Becomes(ok, Serve(lib, cfg, old(resolver.tenants), old(Value()), old(net.io), frame))
    {
      hide ParseInt64, Dispatch;
      net.Note(Received(frame));
      var parsed, _ := ParseRequestHeader(frame);
      if parsed.Panics? || (parsed.Accepted? && !(0 <= parsed.value.size <= |frame|)) {
        net.Crash();
        return false;
      }
      if parsed.Rejected? {
        return false;
      }
      ok := DispatchRequest(parsed.value, frame, frame[parsed.value.size..]);
    }

    /** The serve loop: frames are read and handled one at a time, until one of the
        two fails. */
    method ServeLoop(client: Wire)
      requires Valid()
      modifies this, net, upstream, client
      ensures Valid() && (old(upstream) != null ==> upstream == old(upstream))
      ensures (Value(), net.io)
              == ServeStream(lib, cfg, old(resolver.tenants), old(Value()), old(net.io), old(client.data))
    {
      hide Serve, Read;
      var ok := true;
      ghost var whole := ServeStream(lib, cfg, resolver.tenants, Value(), net.io, client.data);
      while ok
        invariant Valid() && resolver.tenants == old(resolver.tenants)
        invariant old(upstream) != null ==> upstream == old(upstream)
        invariant old(upstream) == null && upstream != null ==> fresh(upstream)
        invariant if ok then ServeStream(lib, cfg, resolver.tenants, Value(), net.io, client.data) == whole
                  else (Value(), net.io) == whole
        decreases ok, |client.data|
      {
        var r := client.ReadFrame();
        if r.Failed? {
          return;
        }
        ok := ServeFrame(r.body);
      }
    }
  }
}
