/** What every request a connection handles keeps: the connection's state agrees with
    its trace, the trace stays safe, and the state only moves forward. */
module Invariant {
  import opened Bytes
  import opened Keys
  import opened Auth
  import opened Framing
  import opened Header
  import opened Resolver
  import opened Upstream
  import opened Connection
  import opened Monitor

  // -------------------------------------------------------------- The invariant

  /** The upstream connection in use is the one dialed last, at its latest id. */
  predicate On(m: Seen, link: Link) {
    m.link == Some(link.addr) && link.lastId == IdAfter(m.sends)
  }

  /** The credentials a PLAIN client gave. */
  predicate Credentials(m: Seen, user: Bytes, pass: Bytes) {
    && m.payload.Some? && Plain(m.payload.value).Some?
    && Plain(m.payload.value).value.username == user && Plain(m.payload.value).value.password == pass
  }

  /** An authenticated PLAIN client is bound to the tenant and password it gave. */
  predicate HoldsCredentials(s: State, m: Seen) { Credentials(m, s.tenant.id, s.password) }

  predicate AgreesByPhase(w: Setting, s: State, m: Seen) {
    match s.phase
    case AwaitHandshake =>
      s.mechanism == [] && s.upstream == None && s.rounds == m.zeros == 0 && s.password == [] && m.payload == None
    case AwaitAuth => s.upstream == None && s.rounds == m.zeros == 0 && s.password == [] && m.payload == None
    case RelayInFlight =>
      && IsScram(s.mechanism) && s.upstream.Some? && s.rounds == m.zeros <= 1 && s.password == []
      && m.payload == None && Agreed(w, m)
    case Authenticated =>
      if IsScram(s.mechanism)
      then s.upstream.Some? && s.rounds == m.zeros == 2 && s.password == [] && m.payload == None
      else s.mechanism == PLAIN && s.rounds == 0 && HoldsCredentials(s, m) && (s.upstream.Some? ==> Cleared(w.cfg, m))
  }

  /** The connection's fields, against what the trace shows. */
  predicate Agrees(w: Setting, s: State, m: Seen) {
    && AgreesByPhase(w, s, m)
    && (s.phase == AwaitHandshake ==> m.handshake == None)
    && (s.phase != AwaitHandshake ==>
        m.handshake == Some(s.mechanism) && (s.mechanism == PLAIN || IsScram(s.mechanism)))
    && (s.phase == RelayInFlight || s.phase == Authenticated ==>
        m.lookup == Some(s.tenant) && ValidTenant(s.tenant))
    && (s.upstream.Some? ==> On(m, s.upstream.value) && s.upstream.value.addr == s.tenant.upstream)
  }

  /** The state and the trace agree on whether the client is in. */
  lemma InsideIff(w: Setting, s: State, m: Seen)
    requires Agrees(w, s, m)
    ensures Inside(m) <==> s.phase == Authenticated
  {
    MechanismsDiffer();
  }

  function Rank(p: Phase): nat {
    match p case AwaitHandshake => 0 case AwaitAuth => 1 case RelayInFlight => 2 case Authenticated => 3
  }

  /** What never goes back: the phase; the mechanism once set; the tenant once
      authentication is past its first message; the upstream once there; the rounds. */
  predicate Advances(s: State, t: State) {
    && Rank(s.phase) <= Rank(t.phase)
    && (s.mechanism != [] ==> t.mechanism == s.mechanism)
    && (Rank(s.phase) >= 2 ==> t.tenant == s.tenant && t.password == s.password)
    && (s.upstream.Some? ==> t.upstream.Some? && t.upstream.value.addr == s.upstream.value.addr)
    && s.rounds <= t.rounds
  }

  /** A request is being handled: it is the one without an answer. */
  predicate Serving(m: Seen, frame: Bytes) {
    |m.requests| == |m.answers| + 1 && m.requests[|m.answers|] == frame
  }

  predicate Settled(m: Seen) { |m.requests| == |m.answers| }

  /** The header is the frame's, and so is its correlation id. */
  predicate Heads(h: RequestHeader, frame: Bytes) {
    HeaderOf(frame) == Some(h) && PutInt32(h.correlationId) == frame[4..8]
  }

  lemma ServingAsked(m: Seen, h: RequestHeader, frame: Bytes)
    requires Serving(m, frame) && Heads(h, frame)
    ensures Current(m) == Some(frame) && Asked(m) == Some((h, frame[h.size..]))
  {
    hide HeaderOf;
  }

  // ------------------------------------------------------------------- Exchanges

  /** Upstream traffic shows nowhere but in the upstream part of what is seen. */
  predicate Quiet(m: Seen, n: Seen) {
    && n.writes == m.writes && n.requests == m.requests && n.answers == m.answers
    && n.handshake == m.handshake && n.lookup == m.lookup && n.payload == m.payload
    && m.rejected <= n.rejected
  }

  /** What one exchange changes. */
  predicate Exchanged(m: Seen, n: Seen, key: int16) {
    && n == m.(sends := m.sends + 1, asked := key, waiting := n.waiting, reply := n.reply, shook := n.shook,
               rejected := n.rejected)
    && m.rejected <= n.rejected && (n.reply.Some? ==> n.rejected == m.rejected)
    && (n.shook == if key == SASL_HANDSHAKE && n.reply.Some? then n.reply else m.shook)
  }

  lemma ExchangeKeeps(
      w: Setting, io: Io, link: Link, key: int16, version: int16, clientId: Bytes, body: Bytes)
    requires Safe(w, io.trace) && On(Watch(io.trace), link)
    requires Permitted(w, Watch(io.trace), link.addr, key, NextId(link.lastId), Typed(version, clientId, body))
    ensures var (io', link', reply) := Exchange(io, link, key, version, clientId, body);
            && Safe(w, io'.trace) && On(Watch(io'.trace), link')
            && Exchanged(Watch(io.trace), Watch(io'.trace), key) && Watch(io'.trace).reply == reply
  {
    hide Safe, Watch, Permitted, Answers, ResponseHeaderVersion;
    var m := Watch(io.trace);
    NextIdAfter(m.sends);
    var sent := Sent(link.addr, key, NextId(link.lastId), Typed(version, clientId, body));
    Extend(w, io.trace, sent);
    Extend(w, io.trace + [sent], ReplyRejected(link.addr));
    var reply := Exchange(io, link, key, version, clientId, body).2;
    if reply.Some? {
      Extend(w, io.trace + [sent], Replied(link.addr, reply.value));
    }
  }

  lemma PassthroughKeeps(w: Setting, io: Io, link: Link, key: int16, frame: Bytes, clientId: int32)
    requires |frame| >= 8
    requires Safe(w, io.trace) && On(Watch(io.trace), link)
    requires var cid := NextId(link.lastId);
             Permitted(w, Watch(io.trace), link.addr, key, cid, Copied(WithId(frame, cid)))
    ensures var (io', link', reply) := Passthrough(io, link, key, frame, clientId);
            var n := Watch(io'.trace);
            && Safe(w, io'.trace) && On(n, link') && Exchanged(Watch(io.trace), n, key)
            && (reply.Some? ==> n.reply.Some? && reply.value == PutInt32(clientId) + n.reply.value)
  {
    hide Safe, Watch, Permitted, WithId;
    var m := Watch(io.trace);
    NextIdAfter(m.sends);
    var sent := Sent(link.addr, key, NextId(link.lastId), Copied(WithId(frame, NextId(link.lastId))));
    Extend(w, io.trace, sent);
    Extend(w, io.trace + [sent], ReplyRejected(link.addr));
    if Passthrough(io, link, key, frame, clientId).2.Some? {
      Extend(w, io.trace + [sent], Replied(link.addr, io.replies[0].body[4..]));
    }
  }

  lemma RelayKeeps(w: Setting, io: Io, link: Link, payload: Bytes)
    requires Safe(w, io.trace) && On(Watch(io.trace), link)
    requires MayAuthenticate(w, Watch(io.trace), link.addr, payload) && Agreed(w, Watch(io.trace))
    ensures var m := Watch(io.trace);
            var (io', link', reply) := Relay(w.lib, io, link, payload);
            var n := Watch(io'.trace);
            && Safe(w, io'.trace) && On(n, link') && Quiet(m, n) && n.done == m.done && n.dials == m.dials
            && n.shook == m.shook
            && (reply == None ==> n.zeros == m.zeros && n.refusals == m.refusals)
            && (reply.Some? ==> n.rejected == m.rejected && n.now.verdict == reply)
            && (reply.Some? && reply.value.code == 0 ==>
                n.zeros == m.zeros + 1 && n.refusals == m.refusals && n.heard == m.heard + [reply.value.payload])
            && (reply.Some? && reply.value.code != 0 ==> n.zeros == m.zeros && n.refusals == m.refusals + 1)
  {
    hide Safe, Watch, Exchange, MayAuthenticate, Inside, Agreed;
    AuthenticatePermitted(w, Watch(io.trace), link.addr, NextId(link.lastId), payload);
    ExchangeKeeps(w, io, link, SASL_AUTHENTICATE, 1, KROXY, payload);
    var (io1, _, reply) := Exchange(io, link, SASL_AUTHENTICATE, 1, KROXY, payload);
    if reply.Some? && w.lib.authReply(reply.value).Some? {
      Extend(w, io1.trace, Verdict(link.addr, w.lib.authReply(reply.value).value));
    }
  }

  lemma AuthenticatePermitted(w: Setting, m: Seen, addr: Bytes, cid: int32, payload: Bytes)
    requires MayAuthenticate(w, m, addr, payload) && Agreed(w, m)
    ensures Permitted(w, m, addr, SASL_AUTHENTICATE, cid, Typed(1, KROXY, payload))
  {}

  /** A connection freshly dialed to `addr`, and nothing decided on it yet. */
  predicate Opened(w: Setting, m: Seen, n: Seen, link: Link) {
    Agreed(w, n) && On(n, link) && n.zeros == 0 && n.refusals == 0 && n.heard == [] && n.rejected == m.rejected
  }

  lemma NegotiateKeeps(w: Setting, io: Io, addr: Bytes, mechanism: Bytes)
    requires Safe(w, io.trace)
    requires var m := Watch(io.trace);
             m.handshake.Some? && m.lookup.Some? && m.lookup.value.upstream == addr && Offered(w, m) == Some(mechanism)
    ensures var m := Watch(io.trace);
            var (io', link) := Negotiate(w.lib, io, addr, mechanism);
            var n := Watch(io'.trace);
            && Safe(w, io'.trace) && Quiet(m, n) && n.now == m.now && (m.zeros == 0 ==> n.zeros == 0)
            && (link.Some? ==> Opened(w, m, n, link.value))
  {
    hide Safe, Watch, Exchange, IdAfter, IsScram;
    if io.dials != [] && io.dials[0] {
      var io0 := Log(io.(dials := Rest(io.dials)), Dialed(addr));
      Extend(w, io.trace, Dialed(addr));
      assert IdAfter(0) == 0 by { ZeroId(); }
      ExchangeKeeps(w, io0, Link(addr, 0), API_VERSIONS, 0, KROXY, []);
      var (io1, link1, versions) := Exchange(io0, Link(addr, 0), API_VERSIONS, 0, KROXY, []);
      if versions.Some? {
        ExchangeKeeps(w, io1, link1, SASL_HANDSHAKE, 1, KROXY, mechanism);
      }
    }
  }

  lemma ZeroId()
    ensures IdAfter(0) == 0
  {}

  /** A dial that a PLAIN client's first request makes. */
  ghost predicate Dials(w: Setting, m: Seen, io: Io, link: Option<Link>) {
    var n := Watch(io.trace);
    && Safe(w, io.trace) && Quiet(m, n)
    && (link.Some? ==> On(n, link.value) && Cleared(w.cfg, n) && n.rejected == m.rejected)
  }

  lemma DialPlainKeeps(w: Setting, io: Io, addr: Bytes, username: Bytes, password: Bytes)
    requires Safe(w, io.trace) && Watch(io.trace).handshake == Some(PLAIN) && !IsScram(w.cfg.upstreamMechanism)
    requires MayAuthenticate(w, Watch(io.trace), addr, UpstreamPlain(username, password))
    ensures var (io', link) := DialPlain(w.lib, io, addr, username, password);
            Dials(w, Watch(io.trace), io', link)
  {
    hide Safe, Watch, Negotiate, Relay, UpstreamPlain, AuthPayload;
    NegotiateKeeps(w, io, addr, PLAIN);
    var (io1, link) := Negotiate(w.lib, io, addr, PLAIN);
    if link.Some? {
      RelayKeeps(w, io1, link.value, UpstreamPlain(username, password));
    }
  }

  /** A SCRAM session with them is under way on `link`. */
  ghost predicate Translating(w: Setting, io: Io, link: Link, user: Bytes, pass: Bytes, heard: seq<Bytes>) {
    var m := Watch(io.trace);
    && Safe(w, io.trace) && On(m, link) && m.refusals == 0 && m.heard == heard && Credentials(m, user, pass)
    && Agreed(w, m)
    && m.handshake == Some(PLAIN) && IsScram(w.cfg.upstreamMechanism)
    && m.lookup.Some? && m.lookup.value.upstream == link.addr
  }

  lemma TranslatedRelayKeeps(
      w: Setting, io: Io, link: Link, user: Bytes, pass: Bytes, heard: seq<Bytes>, msg: Bytes)
    requires Translating(w, io, link, user, pass, heard) && Translated(w, Watch(io.trace), msg)
    ensures var (io', link', reply) := Relay(w.lib, io, link, msg);
            var m, n := Watch(io.trace), Watch(io'.trace);
            && Safe(w, io'.trace) && Quiet(m, n) && (reply.Some? ==> n.rejected == m.rejected)
            && (reply.Some? && reply.value.code == 0 ==>
                Translating(w, io', link', user, pass, heard + [reply.value.payload]) && n.zeros == m.zeros + 1)
  {
    hide Safe, Watch, Relay, IsScram, Carries, AuthPayload, Translated, Credentials;
    RelayKeeps(w, io, link, msg);
    var (io1, _, _) := Relay(w.lib, io, link, msg);
    SameCredentials(Watch(io.trace), Watch(io1.trace), user, pass);
  }

  lemma SameCredentials(m: Seen, n: Seen, user: Bytes, pass: Bytes)
    requires Credentials(m, user, pass) && n.payload == m.payload
    ensures Credentials(n, user, pass)
  {}

  /** What the session says is what the library's session for these credentials does. */
  lemma SessionSays(w: Setting, m: Seen, user: Bytes, pass: Bytes, heard: seq<Bytes>)
    requires Credentials(m, user, pass)
    ensures heard != [] ==> Session(w, m, heard) == w.lib.scramNext(w.cfg.upstreamMechanism, user, pass, heard)
    ensures var first := w.lib.scramFirst(w.cfg.upstreamMechanism, user, pass);
            first.Some? ==> Session(w, m, []) == Some((false, first.value))
  {
    hide Plain;
  }

  /** Its last message, if it has one, is sent and approved before it counts as done. */
  lemma SessionDoneKeeps(w: Setting, io: Io, link: Link, user: Bytes, pass: Bytes, heard: seq<Bytes>)
    requires Translating(w, io, link, user, pass, heard) && SessionEnds(w, Watch(io.trace))
    requires Watch(io.trace).zeros >= 1
    ensures Dials(w, Watch(io.trace), Log(io, SessionDone(link.addr)), Some(link))
  {
    hide Safe, Watch, IsScram, SessionEnds, IdAfter;
    Extend(w, io.trace, SessionDone(link.addr));
  }

  lemma {:induction false} ScramRoundsKeep(
      w: Setting, io: Io, link: Link, user: Bytes, pass: Bytes, heard: seq<Bytes>, msg: Bytes)
    requires Translating(w, io, link, user, pass, heard) && Translated(w, Watch(io.trace), msg)
    ensures var (io', up) := ScramRounds(w.lib, io, link, w.cfg.upstreamMechanism, user, pass, heard, msg);
            Dials(w, Watch(io.trace), io', up)
    decreases |io.replies|
  {
    hide Safe, Watch, Relay, Session, Translating, Cleared, On;
    var m := w.cfg.upstreamMechanism;
    TranslatedRelayKeeps(w, io, link, user, pass, heard, msg);
    var (io1, link1, reply) := Relay(w.lib, io, link, msg);
    if reply.Some? && reply.value.code == 0 {
      var heard1 := heard + [reply.value.payload];
      HeardSays(w, io1, link1, user, pass, heard1);
      var step := w.lib.scramNext(m, user, pass, heard1);
      if step.Some? {
        var (done, next) := step.value;
        if !done {
          ScramRoundsKeep(w, io1, link1, user, pass, heard1, next);
        } else if next == [] {
          SessionDoneKeeps(w, io1, link1, user, pass, heard1);
        } else {
          TranslatedRelayKeeps(w, io1, link1, user, pass, heard1, next);
          var (io2, link2, last) := Relay(w.lib, io1, link1, next);
          if last.Some? && last.value.code == 0 {
            var heard2 := heard1 + [last.value.payload];
            HeardSays(w, io2, link2, user, pass, heard2);
            assert heard2[..|heard2| - 1] == heard1;
            SameSession(w, Watch(io1.trace), Watch(io2.trace), heard1);
            SessionDoneKeeps(w, io2, link2, user, pass, heard2);
          }
        }
      }
    }
  }

  lemma HeardSays(w: Setting, io: Io, link: Link, user: Bytes, pass: Bytes, heard: seq<Bytes>)
    requires Translating(w, io, link, user, pass, heard) && heard != []
    ensures Watch(io.trace).heard == heard
    ensures Session(w, Watch(io.trace), heard) == w.lib.scramNext(w.cfg.upstreamMechanism, user, pass, heard)
  {
    hide Watch, Safe, Session, Credentials, IsScram;
    SessionSays(w, Watch(io.trace), user, pass, heard);
  }

  lemma SameSession(w: Setting, m: Seen, n: Seen, heard: seq<Bytes>)
    requires n.payload == m.payload
    ensures Session(w, n, heard) == Session(w, m, heard)
  {
    hide Plain;
  }

  lemma DialScramKeeps(w: Setting, io: Io, addr: Bytes, user: Bytes, pass: Bytes)
    requires Safe(w, io.trace) && Watch(io.trace).handshake == Some(PLAIN) && IsScram(w.cfg.upstreamMechanism)
    requires Credentials(Watch(io.trace), user, pass)
    requires Watch(io.trace).lookup.Some? && Watch(io.trace).lookup.value.upstream == addr
    ensures var (io', link) := DialScram(w.lib, io, addr, w.cfg.upstreamMechanism, user, pass);
            Dials(w, Watch(io.trace), io', link)
  {
    hide Safe, Watch, Negotiate, ScramRounds, IsScram, Credentials, Session, Cleared;
    var m := w.cfg.upstreamMechanism;
    NegotiateKeeps(w, io, addr, m);
    var (io1, link) := Negotiate(w.lib, io, addr, m);
    var first := w.lib.scramFirst(m, user, pass);
    if link.Some? && first.Some? {
      SameCredentials(Watch(io.trace), Watch(io1.trace), user, pass);
      SessionSays(w, Watch(io1.trace), user, pass, []);
      ScramRoundsKeep(w, io1, link.value, user, pass, [], first.value);
    }
  }

  // ------------------------------------------------------------------- Handlers

  /** From `s` and what was seen then to `s'` and what is seen now: no step back, no
      catalogue write, and no dial if there was an upstream already. */
  predicate Leads(s: State, m: Seen, s': State, n: Seen) {
    Advances(s, s') && n.writes == m.writes && (s.upstream.Some? ==> n.dials == m.dials)
  }

  /** A handled request leaves everything as it should be. A rejected broker reply ends
      the connection, unless the dial it came in was `dropped`. */
  ghost predicate Kept(w: Setting, s: State, m: Seen, frame: Bytes, dropped: bool, r: Outcome) {
    var n := Watch(r.io.trace);
    && Safe(w, r.io.trace)
    && Agrees(w, r.state, n)
    && Connection.Linked(r.state)
    && Leads(s, m, r.state, n)
    && (if r.ok then Settled(n) else Serving(n, frame))
    && (n.rejected > m.rejected && r.ok ==> dropped)
  }

  /** Everything a handler may rely on while it handles a request. */
  ghost predicate Ready(w: Setting, s: State, io: Io, h: RequestHeader, frame: Bytes) {
    && Safe(w, io.trace) && Agrees(w, s, Watch(io.trace))
    && Serving(Watch(io.trace), frame) && Heads(h, frame)
  }

  /** And at its start. */
  ghost predicate Begins(w: Setting, s: State, io: Io, h: RequestHeader, frame: Bytes) {
    Ready(w, s, io, h, frame) && Watch(io.trace).now == NewTurn(Watch(io.trace))
  }

  lemma AnswerKeeps(w: Setting, s: State, m: Seen, dropped: bool, s': State, io: Io, frame: Bytes, response: Bytes)
    requires Safe(w, io.trace) && Agrees(w, s', Watch(io.trace)) && Serving(Watch(io.trace), frame)
    requires SameId(frame, response) && AnswersCurrent(w, Watch(io.trace), response)
    requires Leads(s, m, s', Watch(io.trace)) && (Watch(io.trace).rejected > m.rejected ==> dropped)
    ensures Kept(w, s, m, frame, dropped, Answer(s', io, response))
  {
    hide Safe, Watch, Advances, SameId, AnswersCurrent, Plain, IsScram;
    Extend(w, io.trace, Answered(response));
  }

  lemma ResponseId(h: RequestHeader, frame: Bytes, body: Bytes)
    requires Heads(h, frame)
    ensures SameId(frame, ResponseFrame(h, body)) && ResponseFrame(h, body) == ResponseTo(h) + body
  {
    ResponseLayout(h, body);
    assert ResponseFrame(h, body)[..4] == PutInt32(h.correlationId);
  }

  lemma RespondKeeps(
      w: Setting, s: State, m: Seen, dropped: bool, s': State, io: Io, h: RequestHeader, frame: Bytes, reply: Reply)
    requires Ready(w, s', io, h, frame) && OpensConnection(h.key) && Truthful(w, Watch(io.trace), h.key, reply)
    requires Leads(s, m, s', Watch(io.trace)) && (Watch(io.trace).rejected > m.rejected ==> dropped)
    ensures Kept(w, s, m, frame, dropped, Respond(w.lib, s', io, h, reply))
  {
    hide Safe, Watch, Agrees, Leads, ResponseFrame, Answer, Kept, SameId, ForwardsReply, Truthful, Asked;
    ServingAsked(Watch(io.trace), h, frame);
    ResponseId(h, frame, w.lib.encode(h.version, reply));
    AnswerKeeps(w, s, m, dropped, s', io, frame, ResponseFrame(h, w.lib.encode(h.version, reply)));
  }

  lemma FailedKeeps(w: Setting, s: State, m: Seen, dropped: bool, s': State, io: Io, frame: Bytes)
    requires Safe(w, io.trace) && Agrees(w, s', Watch(io.trace)) && Serving(Watch(io.trace), frame)
    requires Leads(s, m, s', Watch(io.trace))
    ensures Kept(w, s, m, frame, dropped, Outcome(s', io, false))
  {
    hide Safe, Watch, Leads, Plain, IsScram;
  }

  lemma SupportedIff(mechanism: Bytes)
    ensures Supported(mechanism) <==> mechanism == PLAIN || IsScram(mechanism)
  {
    hide Ascii;
  }

  /** The three answers to a handshake, at its start and once it is accepted. */
  lemma HandshakeTruthful(w: Setting, m: Seen, mech: Bytes)
    requires AskedMechanism(w, m) == Some(mech)
    ensures m.now == NEW.(hadHandshake := true, wasIn := m.now.wasIn) ==>
            Truthful(w, m, SASL_HANDSHAKE, HandshakeReply(34))
    ensures m.now == NEW.(wasIn := m.now.wasIn) && !Supported(mech) ==>
            Truthful(w, m, SASL_HANDSHAKE, HandshakeReply(33))
    ensures m.now == NEW.(wasIn := m.now.wasIn, accepted := true) && Supported(mech) ==>
            Truthful(w, m, SASL_HANDSHAKE, HandshakeReply(0))
  {
    hide AskedMechanism, Supported;
  }

  lemma AsksFor(w: Setting, m: Seen, h: RequestHeader, frame: Bytes)
    requires 0 <= h.size <= |frame| && Asked(m) == Some((h, frame[h.size..])) && h.key == SASL_HANDSHAKE
    ensures AskedMechanism(w, m) == w.lib.handshakeMechanism(h.version, frame[h.size..])
  {
    hide Asked;
  }

  lemma SameAsked(w: Setting, m: Seen, n: Seen)
    requires n.requests == m.requests && n.answers == m.answers
    ensures AskedMechanism(w, n) == AskedMechanism(w, m)
  {
    hide HeaderOf;
  }

  lemma HandshakeKeeps(w: Setting, s: State, io: Io, h: RequestHeader, frame: Bytes)
    requires Begins(w, s, io, h, frame) && h.key == SASL_HANDSHAKE
    ensures Kept(w, s, Watch(io.trace), frame, false, Handshake(w.lib, s, io, h, frame[h.size..]))
  {
    hide Safe, Watch, Respond, Kept, Heads, IsScram, HoldsCredentials, Cleared, Supported, Truthful, AskedMechanism,
         Inside;
    MechanismsDiffer();
    var m := Watch(io.trace);
    ServingAsked(m, h, frame);
    assert AskedMechanism(w, m) == w.lib.handshakeMechanism(h.version, frame[h.size..]) by { AsksFor(w, m, h, frame); }
    match w.lib.handshakeMechanism(h.version, frame[h.size..])
    case None => FailedKeeps(w, s, m, false, s, io, frame);
    case Some(mech) =>
      SupportedIff(mech);
      HandshakeTruthful(w, m, mech);
      if s.phase != AwaitHandshake {
        RespondKeeps(w, s, m, false, s, io, h, frame, HandshakeReply(ILLEGAL_STATE));
      } else if mech != PLAIN && !IsScram(mech) {
        RespondKeeps(w, s, m, false, s, io, h, frame, HandshakeReply(UNSUPPORTED_MECHANISM));
      } else {
        Extend(w, io.trace, HandshakeAccepted(mech));
        SameAsked(w, m, Observe(m, HandshakeAccepted(mech)));
        HandshakeTruthful(w, Observe(m, HandshakeAccepted(mech)), mech);
        RespondKeeps(w, s, m, false, s.(mechanism := mech, phase := AwaitAuth), Log(io, HandshakeAccepted(mech)),
                     h, frame, HandshakeReply(0));
      }
  }

  /** A reply that is not the broker's: it refuses, and is "illegal state" exactly if
      this message has no place here. */
  lemma RefuseKeeps(
      w: Setting, s: State, m: Seen, dropped: bool, s': State, io: Io, h: RequestHeader, frame: Bytes, message: string)
    requires Ready(w, s', io, h, frame) && h.key == SASL_AUTHENTICATE
    requires Leads(s, m, s', Watch(io.trace)) && (Watch(io.trace).rejected > m.rejected ==> dropped)
    requires Watch(io.trace).now == NewTurn(m) && Agrees(w, s, m)
    ensures var code := if s.phase == AwaitHandshake || s.phase == Authenticated then ILLEGAL_STATE else AUTH_FAILED;
            Kept(w, s, m, frame, dropped, Respond(w.lib, s', io, h, Refuse(code, message)))
  {
    hide Safe, Watch, Respond, Kept, Ready, Leads, Ascii, Inside;
    InsideIff(w, s, m);
    var code := if s.phase == AwaitHandshake || s.phase == Authenticated then ILLEGAL_STATE else AUTH_FAILED;
    assert Truthful(w, Watch(io.trace), h.key, Refuse(code, message));
    RespondKeeps(w, s, m, dropped, s', io, h, frame, Refuse(code, message));
  }

  lemma AuthPlainKeeps(w: Setting, tenants: Catalogue, s: State, io: Io, h: RequestHeader, frame: Bytes)
    requires Begins(w, s, io, h, frame) && Consistent(tenants) && !IsScram(s.mechanism) && h.key == SASL_AUTHENTICATE
    requires tenants == Replay(w.start, Watch(io.trace).writes)
    ensures Kept(w, s, Watch(io.trace), frame, false, AuthPlain(w.lib, tenants, s, io, h, frame[h.size..]))
  {
    hide Safe, Watch, Respond, Kept, Heads, Plain, IsScram, Refuse, Replay, Cleared;
    MechanismsDiffer();
    var m := Watch(io.trace);
    ServingAsked(m, h, frame);
    match w.lib.authPayload(h.version, frame[h.size..])
    case None => FailedKeeps(w, s, m, false, s, io, frame);
    case Some(payload) =>
      if s.phase != AwaitAuth {
        RefuseKeeps(w, s, m, false, s, io, h, frame, "SASL handshake required");
      } else if Plain(payload) == None {
        RefuseKeeps(w, s, m, false, s, io, h, frame, "malformed PLAIN payload");
      } else {
        var creds := Plain(payload).value;
        var found := Find(tenants, creds.username);
        var looked := Looked(creds.username, found);
        Extend(w, io.trace, looked);
        if found == None {
          RefuseKeeps(w, s, m, false, s, Log(io, looked), h, frame, "authentication failed");
        } else {
          Extend(w, Log(io, looked).trace, PlainAccepted(payload));
          RespondKeeps(w, s, m, false, s.(tenant := found.value, password := creds.password, phase := Authenticated),
                       Log(Log(io, looked), PlainAccepted(payload)), h, frame, AuthenticateReply(AuthReply([], 0, [])));
        }
      }
  }

  /** Before a relayed round: the state is a relay's, whatever it was before. */
  lemma RelayRoundKeeps(
      w: Setting, s: State, m: Seen, s': State, io: Io, h: RequestHeader, frame: Bytes, payload: Bytes)
    requires Ready(w, s', io, h, frame) && s'.phase == RelayInFlight && h.key == SASL_AUTHENTICATE
    requires w.lib.authPayload(h.version, frame[h.size..]) == Some(payload)
    requires Leads(s, m, s', Watch(io.trace)) && Watch(io.trace).rejected == m.rejected
    ensures Kept(w, s, m, frame, false, RelayRound(w.lib, s', io, h, payload))
  {
    hide Safe, Watch, Respond, Relay, Kept, Heads, IsScram, Cleared, HoldsCredentials;
    MechanismsDiffer();
    ServingAsked(Watch(io.trace), h, frame);
    var link := s'.upstream.value;
    RelayKeeps(w, io, link, payload);
    var (io1, link1, reply) := Relay(w.lib, io, link, payload);
    var s1 := s'.(upstream := Some(link1));
    if reply == None {
      FailedKeeps(w, s, m, false, s1, io1, frame);
    } else if reply.value.code != 0 {
      RespondKeeps(w, s, m, false, s1, io1, h, frame, AuthenticateReply(reply.value));
    } else {
      var rounds := s'.rounds + 1;
      RespondKeeps(w, s, m, false, s1.(rounds := rounds, phase := if rounds >= 2 then Authenticated else s'.phase),
                   io1, h, frame, AuthenticateReply(reply.value));
    }
  }

  /** The dial for a SCRAM client's first message fails. */
  predicate DialDropped(lib: Library, tenants: Catalogue, s: State, io: Io, h: RequestHeader, body: Bytes) {
    && h.key == SASL_AUTHENTICATE && IsScram(s.mechanism) && s.phase == AwaitAuth
    && var payload := lib.authPayload(h.version, body);
       && payload.Some? && ParseClientFirst(payload.value).Some?
       && var name := ParseClientFirst(payload.value).value.name;
          && name in tenants
          && DialRelay(lib, Log(io, Looked(name, Some(tenants[name]))), tenants[name].upstream, s.mechanism).1 == None
  }

  lemma AuthScramKeeps(w: Setting, tenants: Catalogue, s: State, io: Io, h: RequestHeader, frame: Bytes)
    requires Begins(w, s, io, h, frame) && Consistent(tenants) && IsScram(s.mechanism) && h.key == SASL_AUTHENTICATE
    requires Connection.Linked(s) && tenants == Replay(w.start, Watch(io.trace).writes)
    ensures Kept(w, s, Watch(io.trace), frame, DialDropped(w.lib, tenants, s, io, h, frame[h.size..]),
                 AuthScram(w.lib, tenants, s, io, h, frame[h.size..]))
  {
    hide Safe, Watch, Respond, RelayRound, Negotiate, Kept, Heads, ParseClientFirst, Refuse, Cleared,
         HoldsCredentials, Replay;
    MechanismsDiffer();
    var m := Watch(io.trace);
    ServingAsked(m, h, frame);
    match w.lib.authPayload(h.version, frame[h.size..])
    case None => FailedKeeps(w, s, m, false, s, io, frame);
    case Some(payload) =>
      if s.phase == RelayInFlight {
        RelayRoundKeeps(w, s, m, s, io, h, frame, payload);
      } else if s.phase != AwaitAuth {
        RefuseKeeps(w, s, m, false, s, io, h, frame, "SASL handshake required");
      } else if ParseClientFirst(payload) == None {
        RefuseKeeps(w, s, m, false, s, io, h, frame, "malformed SCRAM client-first-message");
      } else {
        var name := ParseClientFirst(payload).value.name;
        var found := Find(tenants, name);
        var io1 := Log(io, Looked(name, found));
        Extend(w, io.trace, Looked(name, found));
        if found == None {
          RefuseKeeps(w, s, m, false, s, io1, h, frame, "authentication failed");
        } else {
          var s1 := s.(tenant := found.value);
          NegotiateKeeps(w, io1, found.value.upstream, s.mechanism);
          var (io2, link) := DialRelay(w.lib, io1, found.value.upstream, s.mechanism);
          if link == None {
            RefuseKeeps(w, s, m, true, s1, io2, h, frame, "upstream unavailable");
          } else {
            RelayRoundKeeps(w, s, m, s1.(upstream := link, phase := RelayInFlight), io2, h, frame, payload);
          }
        }
      }
  }

  /** The credentials an authenticated PLAIN client's dial sends are the client's. */
  lemma CredentialsCarried(s: State, m: Seen)
    requires HoldsCredentials(s, m)
    ensures Carries(m, UpstreamPlain(s.tenant.id, s.password))
  {
    var c := Plain(m.payload.value).value;
    PlainIff(m.payload.value, c);
    UpstreamPlainIff(c.username, c.password);
  }

  /** After ensureUpstream: the state is as before but for an authenticated upstream. */
  lemma EnsureKeeps(w: Setting, s: State, io: Io, h: RequestHeader, frame: Bytes)
    requires Ready(w, s, io, h, frame) && s.phase == Authenticated
    ensures var r := EnsureUpstream(w.lib, w.cfg, s, io);
            && Ready(w, r.state, r.io, h, frame) && Leads(s, Watch(io.trace), r.state, Watch(r.io.trace))
            && r.state == s.(upstream := r.state.upstream)
            && (r.ok ==> r.state.upstream.Some? && Watch(r.io.trace).rejected == Watch(io.trace).rejected)
  {
    hide Safe, Watch, DialPlain, DialScram, Heads, IsScram, Plain, UpstreamPlain, AuthPayload;
    MechanismsDiffer();
    if s.upstream == None {
      CredentialsCarried(s, Watch(io.trace));
      if Translates(w.cfg, s) {
        DialScramKeeps(w, io, s.tenant.upstream, s.tenant.id, s.password);
      } else {
        DialPlainKeeps(w, io, s.tenant.upstream, s.tenant.id, s.password);
      }
    }
  }

  /** An authenticated connection's traffic is cleared. */
  lemma TrafficPermitted(w: Setting, s: State, m: Seen, key: int16, cid: int32, out: Outgoing)
    requires Agrees(w, s, m) && s.phase == Authenticated && s.upstream.Some? && !OpensConnection(key)
    requires ForwardsCurrent(w, m, key, cid, out)
    ensures Permitted(w, m, s.upstream.value.addr, key, cid, out)
  {
    hide ForwardsCurrent;
    MechanismsDiffer();
  }

  lemma SentKeeps(w: Setting, s: State, m: Seen, s1: State, n: Seen, key: int16)
    requires Agrees(w, s, m) && s.upstream.Some? && s1.upstream.Some? && s1 == s.(upstream := s1.upstream)
    requires s1.upstream.value.addr == s.upstream.value.addr && On(n, s1.upstream.value)
    requires Exchanged(m, n, key) && key != SASL_HANDSHAKE
    ensures Agrees(w, s1, n) && Leads(s, m, s1, n)
  {
    hide Plain, IsScram, IdAfter;
  }

  lemma RewrittenKeeps(w: Setting, s: State, io: Io, h: RequestHeader, frame: Bytes)
    requires Ready(w, s, io, h, frame) && s.phase == Authenticated && s.upstream.Some?
    requires !OpensConnection(h.key) && HasRewriter(h.key)
    ensures Kept(w, s, Watch(io.trace), frame, false, Rewritten(w.lib, s, io, h, frame[h.size..]))
  {
    hide Safe, Watch, Exchange, Kept, HeaderOf, IsScram, Answer, ResponseFrame, SameId, Permitted, AgreesByPhase,
         Leads, Asked, HasRewriter, NamesThings, ResponseTo;
    RewriterIff(h.key);
    var m := Watch(io.trace);
    ServingAsked(m, h, frame);
    match w.lib.rewriteIn(h.key, h.version, s.tenant.topicPrefix, frame[h.size..])
    case None =>
      StaysPut(s, m);
      FailedKeeps(w, s, m, false, s, io, frame);
    case Some(request) =>
      TrafficPermitted(w, s, m, h.key, NextId(s.upstream.value.lastId), Typed(h.version, h.clientId, request));
      ExchangeKeeps(w, io, s.upstream.value, h.key, h.version, h.clientId, request);
      var (io1, link, reply) := Exchange(io, s.upstream.value, h.key, h.version, h.clientId, request);
      var s1 := s.(upstream := Some(link));
      SentKeeps(w, s, m, s1, Watch(io1.trace), h.key);
      if reply == None || w.lib.rewriteOut(h.key, h.version, s.tenant.topicPrefix, reply.value) == None {
        FailedKeeps(w, s, m, false, s1, io1, frame);
      } else {
        var response := w.lib.rewriteOut(h.key, h.version, s.tenant.topicPrefix, reply.value).value;
        ResponseId(h, frame, response);
        ServingAsked(Watch(io1.trace), h, frame);
        AnswerKeeps(w, s, m, false, s1, io1, frame, ResponseFrame(h, response));
      }
  }

  lemma StaysPut(s: State, m: Seen)
    ensures Leads(s, m, s, m)
  {}

  lemma PassedThroughKeeps(w: Setting, s: State, io: Io, h: RequestHeader, frame: Bytes)
    requires Ready(w, s, io, h, frame) && s.phase == Authenticated && s.upstream.Some?
    requires !OpensConnection(h.key) && !HasRewriter(h.key)
    ensures Kept(w, s, Watch(io.trace), frame, false, PassedThrough(s, io, h, frame))
  {
    hide Safe, Watch, Passthrough, Kept, IsScram, Answer, Permitted, AgreesByPhase, WithId, Leads, Asked, HasRewriter,
         NamesThings, OnlyIdDiffers;
    RewriterIff(h.key);
    var m := Watch(io.trace);
    ServingAsked(m, h, frame);
    var cid := NextId(s.upstream.value.lastId);
    WithIdIs(frame, cid);
    TrafficPermitted(w, s, m, h.key, cid, Copied(WithId(frame, cid)));
    PassthroughKeeps(w, io, s.upstream.value, h.key, frame, h.correlationId);
    var (io1, link, reply) := Passthrough(io, s.upstream.value, h.key, frame, h.correlationId);
    var s1 := s.(upstream := Some(link));
    SentKeeps(w, s, m, s1, Watch(io1.trace), h.key);
    if reply == None {
      FailedKeeps(w, s, m, false, s1, io1, frame);
    } else {
      ServingAsked(Watch(io1.trace), h, frame);
      AnswerKeeps(w, s, m, false, s1, io1, frame, reply.value);
    }
  }

  lemma ForwardKeeps(w: Setting, s: State, io: Io, h: RequestHeader, frame: Bytes)
    requires Ready(w, s, io, h, frame) && Connection.Linked(s) && !OpensConnection(h.key)
    ensures Kept(w, s, Watch(io.trace), frame, false,
                 Connection.Forward(w.lib, w.cfg, s, io, h, frame, frame[h.size..]))
  {
    hide Safe, Watch, EnsureUpstream, Rewritten, PassedThrough, HasRewriter, Agrees, Heads;
    if s.phase == Authenticated {
      EnsureKeeps(w, s, io, h, frame);
      var dialed := EnsureUpstream(w.lib, w.cfg, s, io);
      if dialed.ok {
        if HasRewriter(h.key) {
          RewrittenKeeps(w, dialed.state, dialed.io, h, frame);
        } else {
          PassedThroughKeeps(w, dialed.state, dialed.io, h, frame);
        }
      }
    }
  }

  lemma DispatchKeeps(w: Setting, tenants: Catalogue, s: State, io: Io, h: RequestHeader, frame: Bytes)
    requires Begins(w, s, io, h, frame) && Consistent(tenants) && Connection.Linked(s)
    requires tenants == Replay(w.start, Watch(io.trace).writes)
    ensures Kept(w, s, Watch(io.trace), frame, DialDropped(w.lib, tenants, s, io, h, frame[h.size..]),
                 Dispatch(w.lib, w.cfg, tenants, s, io, h, frame, frame[h.size..]))
  {
    hide Safe, Watch, Agrees, Respond, Handshake, AuthPlain, AuthScram, Connection.Forward, IsScram, Heads, Consistent,
         DialDropped, Replay, Inside, Leads;
    StaysPut(s, Watch(io.trace));
    if h.key == API_VERSIONS {
      RespondKeeps(w, s, Watch(io.trace), false, s, io, h, frame, ApiVersionsReply);
    } else if h.key == SASL_HANDSHAKE {
      HandshakeKeeps(w, s, io, h, frame);
    } else if h.key == SASL_AUTHENTICATE {
      if IsScram(s.mechanism) {
        AuthScramKeeps(w, tenants, s, io, h, frame);
      } else {
        AuthPlainKeeps(w, tenants, s, io, h, frame);
      }
    } else {
      ForwardKeeps(w, s, io, h, frame);
    }
  }

  lemma IdBytes(frame: Bytes)
    requires |frame| >= 8
    ensures PutInt32(ToInt32(GetUint32(frame, 4))) == frame[4..8]
  {
    var id := frame[4..8];
    assert GetUint32(id, 0) == GetUint32(frame, 4);
    Uint32Bytes(id);
    assert id[..4] == id;
  }

  /** A frame received is a turn begun. */
  lemma ReceiveKeeps(w: Setting, s: State, io: Io, frame: Bytes)
    requires Safe(w, io.trace) && Agrees(w, s, Watch(io.trace)) && Settled(Watch(io.trace))
    ensures var m := Watch(io.trace);
            var io1 := Log(io, Received(frame));
            var n := Watch(io1.trace);
            && Safe(w, io1.trace) && Agrees(w, s, n) && Serving(n, frame) && n.now == NewTurn(n)
            && n.writes == m.writes && n.dials == m.dials && n.rejected == m.rejected
  {
    hide Safe, Watch, Plain, IsScram;
    Extend(w, io.trace, Received(frame));
  }

  /** The first message of a SCRAM client, and the dial for it fails. */
  predicate FirstDialFails(lib: Library, tenants: Catalogue, s: State, io: Io, frame: Bytes) {
    && HeaderOf(frame).Some?
    && var h := HeaderOf(frame).value;
       DialDropped(lib, tenants, s, Log(io, Received(frame)), h, frame[h.size..])
  }

  /** Whatever frame a client sends, in whatever state, and whatever the broker and the
      network do. */
  lemma ServeKeeps(w: Setting, tenants: Catalogue, s: State, io: Io, frame: Bytes)
    requires Safe(w, io.trace) && Agrees(w, s, Watch(io.trace)) && Settled(Watch(io.trace))
    requires Consistent(tenants) && Connection.Linked(s) && tenants == Replay(w.start, Watch(io.trace).writes)
    ensures Kept(w, s, Watch(io.trace), frame, FirstDialFails(w.lib, tenants, s, io, frame),
                 Serve(w.lib, w.cfg, tenants, s, io, frame))
  {
    hide Safe, Watch, Dispatch, HeaderOf, Agrees, DialDropped, Consistent, Replay, HeaderPanics, Inside, NewTurn;
    ReceiveKeeps(w, s, io, frame);
    if HeaderOf(frame).Some? {
      IdBytes(frame);
      DispatchKeeps(w, tenants, s, Log(io, Received(frame)), HeaderOf(frame).value, frame);
    }
  }
}
