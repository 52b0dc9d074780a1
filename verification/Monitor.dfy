/** What a trace must look like, said without reference to the connection's state:
    a fold over the events, and what it must show before each one. */
module Monitor {
  import opened Bytes
  import opened Keys
  import opened Auth
  import opened Header
  import opened Resolver
  import opened Upstream
  import opened Connection

  /** What a run is set in: the libraries, the configuration, and the catalogue at the
      start. */
  datatype Setting = Setting(lib: Library, cfg: Config, start: Catalogue)

  // -------------------------------------------------------------- The fold

  /** What has happened since the client's latest frame: whether a handshake had been
      accepted and the client let in before it; whether it has been a handshake that was
      accepted or credentials that let the client in; and the broker's latest verdict. */
  datatype Turn = Turn(
    hadHandshake: bool, wasIn: bool, accepted: bool, admitted: bool, verdict: Option<AuthReply>)

  /** What has been seen so far. The fields from `link` to `done` are about the upstream
      connection dialed last: its address, the requests sent, the key of the latest, whether
      this turn still waits for the reply to it, the reply, the reply to a handshake, the
      authentication verdicts with code 0 and with another code, what the former carried, and
      whether a SCRAM session completed. */
  datatype Seen = Seen(
    writes: seq<Write>, requests: seq<Bytes>, answers: seq<Bytes>, now: Turn,
    handshake: Option<Bytes>, lookup: Option<Tenant>, payload: Option<Bytes>,
    dials: nat, link: Option<Bytes>, sends: nat, asked: int16, waiting: bool, reply: Option<Bytes>,
    shook: Option<Bytes>, zeros: nat, refusals: nat, heard: seq<Bytes>, done: bool, rejected: nat)

  const NEW := Turn(false, false, false, false, None)
  const NOTHING := Seen([], [], [], NEW, None, None, None, 0, None, 0, 0, false, None, None, 0, 0, [], false, 0)

  /** The client has been let in: with PLAIN credentials, or by two verdicts of 0. */
  predicate Inside(m: Seen) {
    m.payload.Some? || (m.handshake != Some(PLAIN) && m.zeros >= 2)
  }

  function NewTurn(m: Seen): Turn { NEW.(hadHandshake := m.handshake.Some?, wasIn := Inside(m)) }

  function Observe(m: Seen, e: Event): Seen {
    match e
    case Wrote(w) => m.(writes := m.writes + [w])
    case Received(f) => m.(requests := m.requests + [f], now := NewTurn(m), waiting := false, reply := None)
    case HandshakeAccepted(mechanism) => m.(handshake := Some(mechanism), now := m.now.(accepted := true))
    case Looked(_, found) => m.(lookup := found)
    case PlainAccepted(p) => m.(payload := Some(p), now := m.now.(admitted := true))
    case Dialed(addr) =>
      m.(dials := m.dials + 1, link := Some(addr), sends := 0, waiting := false, reply := None, shook := None,
         zeros := 0, refusals := 0, heard := [], done := false)
    case Sent(_, key, _, _) => m.(sends := m.sends + 1, asked := key, waiting := true, reply := None)
    case Replied(_, body) =>
      m.(waiting := false, reply := Some(body), shook := if m.asked == SASL_HANDSHAKE then Some(body) else m.shook)
    case ReplyRejected(_) => m.(waiting := false, rejected := m.rejected + 1)
    case Verdict(_, r) =>
      var n := m.(now := m.now.(verdict := Some(r)));
      if r.code == 0 then n.(zeros := m.zeros + 1, heard := m.heard + [r.payload]) else n.(refusals := m.refusals + 1)
    case SessionDone(_) => m.(done := true)
    case Answered(f) => m.(answers := m.answers + [f])
  }

  function Watch(trace: seq<Event>): Seen {
    if trace == [] then NOTHING else Observe(Watch(trace[..|trace| - 1]), trace[|trace| - 1])
  }

  // ------------------------------------------------------- The request at hand

  /** The request being handled: the one without an answer. */
  function Current(m: Seen): Option<Bytes> {
    if |m.answers| < |m.requests| then Some(m.requests[|m.answers|]) else None
  }

  /** Its header and body. */
  function Asked(m: Seen): Option<(RequestHeader, Bytes)> {
    match Current(m)
    case None => None
    case Some(frame) =>
      match HeaderOf(frame)
      case None => None
      case Some(h) => Some((h, frame[h.size..]))
  }

  /** The SASL payload it carries, if it is a SaslAuthenticate. */
  function AuthPayload(w: Setting, m: Seen): Option<Bytes> {
    match Asked(m)
    case None => None
    case Some((h, body)) => if h.key == SASL_AUTHENTICATE then w.lib.authPayload(h.version, body) else None
  }

  /** The mechanism it asks for, if it is a SaslHandshake. */
  function AskedMechanism(w: Setting, m: Seen): Option<Bytes> {
    match Asked(m)
    case None => None
    case Some((h, body)) => if h.key == SASL_HANDSHAKE then w.lib.handshakeMechanism(h.version, body) else None
  }

  /** The tenant its payload names: a PLAIN username, or a SCRAM client-first-message's
      name. */
  function NamedTenant(w: Setting, m: Seen): Option<Bytes> {
    match AuthPayload(w, m)
    case None => None
    case Some(p) =>
      if m.handshake == Some(PLAIN) then (if Plain(p) == None then None else Some(Plain(p).value.username))
      else if ParseClientFirst(p) == None then None else Some(ParseClientFirst(p).value.name)
  }

  // ------------------------------------------------------------ What may be sent

  /** The keys kroxy sends on its own account to open a connection. */
  predicate OpensConnection(key: int16) {
    key == API_VERSIONS || key == SASL_HANDSHAKE || key == SASL_AUTHENTICATE
  }

  /** The broker has authenticated the connection: a PLAIN client by a dial in which
      every verdict was code 0 (and, when translating, the SCRAM session completed); a
      SCRAM client by two relayed rounds with code 0. */
  predicate Cleared(cfg: Config, m: Seen) {
    if m.handshake == Some(PLAIN)
    then m.zeros >= 1 && m.refusals == 0 && (IsScram(cfg.upstreamMechanism) ==> m.done)
    else m.zeros >= 2
  }

  /** `body` is a PLAIN message with the credentials the client gave. */
  predicate Carries(m: Seen, body: Bytes) {
    && m.payload.Some? && Plain(m.payload.value).Some?
    && var c := Plain(m.payload.value).value;
       Plain(body) == Some(PlainCredentials([], c.username, c.password))
  }

  /** What the SCRAM session for a PLAIN client's credentials says after hearing `heard`:
      whether it is done, and its next message. */
  function Session(w: Setting, m: Seen, heard: seq<Bytes>): Option<(bool, Bytes)> {
    if m.payload == None || Plain(m.payload.value) == None then None else
      var c := Plain(m.payload.value).value;
      var mechanism := w.cfg.upstreamMechanism;
      if heard != [] then w.lib.scramNext(mechanism, c.username, c.password, heard)
      else match w.lib.scramFirst(mechanism, c.username, c.password)
           case None => None
           case Some(first) => Some((false, first))
  }

  /** `body` is the next message of that session. */
  predicate Translated(w: Setting, m: Seen, body: Bytes) {
    Session(w, m, m.heard).Some? && Session(w, m, m.heard).value.1 == body
  }

  /** The session is done: it said so last, or with the message before the last verdict. */
  predicate SessionEnds(w: Setting, m: Seen) {
    || Session(w, m, m.heard) == Some((true, []))
    || (m.heard != [] && var said := Session(w, m, m.heard[..|m.heard| - 1]); said.Some? && said.value.0)
  }

  /** A SaslAuthenticate payload that may go to `addr`: a SCRAM client's own, as it is at
      hand; a PLAIN client's credentials, or the SCRAM message they are translated to. */
  predicate MayAuthenticate(w: Setting, m: Seen, addr: Bytes, payload: Bytes) {
    && m.handshake.Some? && m.lookup.Some? && m.lookup.value.upstream == addr
    && if m.handshake != Some(PLAIN) then AuthPayload(w, m) == Some(payload)
       else if IsScram(w.cfg.upstreamMechanism) then Translated(w, m, payload) else Carries(m, payload)
  }

  /** `out` is the request being handled: rewritten with the prefix of the tenant looked
      up, under the client's version and client id, or, for a key that names nothing, as it
      came but for its correlation id. */
  predicate ForwardsCurrent(w: Setting, m: Seen, key: int16, cid: int32, out: Outgoing)
    requires m.lookup.Some?
  {
    && Asked(m).Some?
    && var (h, request) := Asked(m).value;
       && h.key == key
       && (if NamesThings(key)
           then && out.Typed? && out.version == h.version && out.clientId == h.clientId
                && w.lib.rewriteIn(key, h.version, m.lookup.value.topicPrefix, request) == Some(out.body)
           else out.Copied? && OnlyIdDiffers(Current(m).value, out.frame, cid))
  }

  /** The broker has answered the handshake with code 0. */
  predicate Agreed(w: Setting, m: Seen) {
    m.shook.Some? && w.lib.handshakeCode(m.shook.value) == Some(0)
  }

  /** The mechanism offered to the broker: the client's, or the one PLAIN is translated
      to. */
  function Offered(w: Setting, m: Seen): Option<Bytes> {
    if m.handshake == Some(PLAIN) && IsScram(w.cfg.upstreamMechanism) then Some(w.cfg.upstreamMechanism)
    else m.handshake
  }

  /** What must have happened before a request may go to `addr`. */
  predicate Permitted(w: Setting, m: Seen, addr: Bytes, key: int16, cid: int32, out: Outgoing) {
    && m.handshake.Some?
    && m.lookup.Some? && m.lookup.value.upstream == addr
    && if key == API_VERSIONS then out == Typed(0, KROXY, [])
       else if key == SASL_HANDSHAKE then Offered(w, m).Some? && out == Typed(1, KROXY, Offered(w, m).value)
       else if key == SASL_AUTHENTICATE
       then && out.Typed? && out.version == 1 && out.clientId == KROXY
            && Agreed(w, m) && MayAuthenticate(w, m, addr, out.body)
       else Cleared(w.cfg, m) && ForwardsCurrent(w, m, key, cid, out)
  }

  // -------------------------------------------------------- What may be answered

  /** The answer carries the request's correlation id, byte for byte. */
  predicate SameId(request: Bytes, answer: Bytes) {
    |request| >= 8 && |answer| >= 4 && answer[..4] == request[4..8]
  }

  /** `f` is the broker's reply to the request being handled: rewritten with the prefix
      of the tenant looked up, or as it came, under the client's id. */
  predicate ForwardsReply(w: Setting, m: Seen, h: RequestHeader, f: Bytes) {
    && m.reply.Some? && m.asked == h.key && m.lookup.Some?
    && if NamesThings(h.key)
       then var out := w.lib.rewriteOut(h.key, h.version, m.lookup.value.topicPrefix, m.reply.value);
            out.Some? && f == ResponseTo(h) + out.value
       else f == PutInt32(h.correlationId) + m.reply.value
  }

  /** The header of the response to a request. */
  function ResponseTo(h: RequestHeader): Bytes { ResponseHeader(h.key, h.version, h.correlationId) }

  /** The mechanisms kroxy takes. */
  predicate Supported(mechanism: Bytes) {
    mechanism == Ascii("PLAIN") || mechanism == Ascii("SCRAM-SHA-256") || mechanism == Ascii("SCRAM-SHA-512")
  }

  /** What kroxy itself says is so. A handshake is answered with code 0 exactly if it was
      accepted, with 34 exactly if it was not the first, and with 33 exactly if it was and
      its mechanism is not supported. An authentication message that went to the broker is
      answered with the broker's verdict, word for word; any other with code 0 exactly if it
      let the client in, with 34 exactly if there was no handshake or the client was in
      already, and else with 58. */
  predicate Truthful(w: Setting, m: Seen, key: int16, reply: Reply) {
    if key == API_VERSIONS then reply == ApiVersionsReply
    else if key == SASL_HANDSHAKE then
      && reply.HandshakeReply?
      && (reply.code == 0 <==> m.now.accepted)
      && (reply.code == 34 <==> m.now.hadHandshake)
      && AskedMechanism(w, m).Some?
      && (reply.code == 33 <==> !m.now.hadHandshake && !Supported(AskedMechanism(w, m).value))
      && (reply.code == 0 || reply.code == 33 || reply.code == 34)
    else
      && reply.AuthenticateReply?
      && (m.now.verdict.Some? ==> reply.reply == m.now.verdict.value)
      && (m.now.verdict.None? ==>
          && (reply.reply.code == 0 <==> m.now.admitted)
          && (reply.reply.code == 34 <==> m.now.wasIn || !m.now.hadHandshake)
          && (reply.reply.code == 0 || reply.reply.code == 34 || reply.reply.code == 58))
  }

  ghost predicate SaysTruth(w: Setting, m: Seen, h: RequestHeader, f: Bytes) {
    exists reply :: f == ResponseTo(h) + w.lib.encode(h.version, reply) && Truthful(w, m, h.key, reply)
  }

  ghost predicate AnswersCurrent(w: Setting, m: Seen, f: Bytes) {
    && Asked(m).Some?
    && var h := Asked(m).value.0;
       if OpensConnection(h.key) then SaysTruth(w, m, h, f) else ForwardsReply(w, m, h, f)
  }

  // ------------------------------------------------------------------ The trace

  ghost predicate Allowed(w: Setting, m: Seen, e: Event) {
    match e
    case Wrote(_) => true
    case Received(_) => |m.requests| == |m.answers|
    case HandshakeAccepted(mechanism) =>
      m.handshake == None && AskedMechanism(w, m) == Some(mechanism) && Supported(mechanism)
    case Looked(id, found) =>
      NamedTenant(w, m) == Some(id) && found == Find(Replay(w.start, m.writes), id)
    case PlainAccepted(p) =>
      && m.handshake == Some(PLAIN) && AuthPayload(w, m) == Some(p) && Plain(p).Some?
      && m.lookup.Some? && m.lookup.value.id == Plain(p).value.username
    case Dialed(addr) => m.handshake.Some? && m.lookup.Some? && m.lookup.value.upstream == addr
    case Sent(addr, key, cid, out) =>
      m.link == Some(addr) && cid == IdAfter(m.sends + 1) && Permitted(w, m, addr, key, cid, out)
    case Replied(addr, _) => m.link == Some(addr) && m.waiting
    case ReplyRejected(addr) => m.link == Some(addr) && m.waiting
    case Verdict(addr, r) =>
      && m.link == Some(addr) && m.asked == SASL_AUTHENTICATE
      && m.reply.Some? && w.lib.authReply(m.reply.value) == Some(r)
    case SessionDone(addr) => m.link == Some(addr) && SessionEnds(w, m)
    case Answered(f) =>
      |m.requests| == |m.answers| + 1 && SameId(m.requests[|m.answers|], f) && AnswersCurrent(w, m, f)
  }

  ghost predicate Safe(w: Setting, trace: seq<Event>) {
    forall i | 0 <= i < |trace| :: Allowed(w, Watch(trace[..i]), trace[i])
  }

  lemma Extend(w: Setting, trace: seq<Event>, e: Event)
    requires Safe(w, trace) && Allowed(w, Watch(trace), e)
    ensures Safe(w, trace + [e]) && Watch(trace + [e]) == Observe(Watch(trace), e)
  {
    hide Allowed, Observe;
    var longer := trace + [e];
    assert longer[..|trace|] == trace;
    forall i | 0 <= i < |longer| ensures Allowed(w, Watch(longer[..i]), longer[i]) {
      if i < |trace| {
        assert longer[..i] == trace[..i];
      }
    }
  }

  lemma SafeAt(w: Setting, trace: seq<Event>, i: nat)
    requires Safe(w, trace) && i < |trace|
    ensures Allowed(w, Watch(trace[..i]), trace[i])
  {
    hide Allowed, Watch;
  }

  lemma SafePrefix(w: Setting, trace: seq<Event>, n: nat)
    requires Safe(w, trace) && n <= |trace|
    ensures Safe(w, trace[..n])
  {
    hide Allowed, Watch;
    forall i | 0 <= i < n ensures Allowed(w, Watch(trace[..n][..i]), trace[..n][i]) {
      assert trace[..n][..i] == trace[..i];
    }
  }

  /** The answers are those to the requests so far, in order, except perhaps the
      last one. */
  predicate InOrder(m: Seen) {
    && |m.answers| <= |m.requests| <= |m.answers| + 1
    && forall k | 0 <= k < |m.answers| :: SameId(m.requests[k], m.answers[k])
  }

  lemma ObserveInOrder(w: Setting, m: Seen, e: Event)
    requires InOrder(m) && Allowed(w, m, e)
    ensures InOrder(Observe(m, e))
  {
    hide SameId, Permitted, AnswersCurrent, SessionEnds, NamedTenant, AuthPayload, AskedMechanism, Find, Replay, Inside;
  }

  lemma {:induction false} AnswersInOrder(w: Setting, trace: seq<Event>)
    requires Safe(w, trace)
    ensures InOrder(Watch(trace))
    decreases |trace|
  {
    hide InOrder, Allowed, Observe, Safe;
    if trace == [] {
      NothingInOrder();
    } else {
      var n := |trace| - 1;
      SafePrefix(w, trace, n);
      SafeAt(w, trace, n);
      AnswersInOrder(w, trace[..n]);
      ObserveInOrder(w, Watch(trace[..n]), trace[n]);
    }
  }

  lemma NothingInOrder()
    ensures InOrder(NOTHING)
  {}

  // ------------------------------------------------------- What the fold remembers

  /** No event from position `from` on is a `p`. */
  ghost predicate NoneAfter(trace: seq<Event>, from: nat, p: Event -> bool) {
    forall j | from <= j < |trace| :: !p(trace[j])
  }

  function IsLookup(): Event -> bool { (e: Event) => e.Looked? }
  function IsDial(): Event -> bool { (e: Event) => e.Dialed? }
  function IsReceived(): Event -> bool { (e: Event) => e.Received? }
  function IsRenewal(): Event -> bool { (e: Event) => e.Sent? || e.Received? || e.Dialed? }
  function IsClientSide(): Event -> bool { (e: Event) => e.Received? || e.Answered? }

  /** Verdicts from `addr` with code 0, and with any other. */
  function Zeros(addr: Bytes, trace: seq<Event>): nat {
    if trace == [] then 0
    else
      var e := trace[|trace| - 1];
      Zeros(addr, trace[..|trace| - 1]) + if e.Verdict? && e.addr == addr && e.reply.code == 0 then 1 else 0
  }

  function Refusals(addr: Bytes, trace: seq<Event>): nat {
    if trace == [] then 0
    else
      var e := trace[|trace| - 1];
      Refusals(addr, trace[..|trace| - 1]) + if e.Verdict? && e.addr == addr && e.reply.code != 0 then 1 else 0
  }

  function Sends(trace: seq<Event>): nat {
    if trace == [] then 0
    else Sends(trace[..|trace| - 1]) + (if trace[|trace| - 1].Sent? then 1 else 0)
  }

  predicate Finished(addr: Bytes, trace: seq<Event>) {
    exists j :: 0 <= j < |trace| && trace[j] == SessionDone(addr)
  }

  lemma {:induction false} SendsSplit(trace: seq<Event>, k: nat)
    requires k <= |trace|
    ensures Sends(trace) == Sends(trace[..k]) + Sends(trace[k..])
    decreases |trace|
  {
    if k == |trace| {
      assert trace[..k] == trace;
    } else {
      var n := |trace| - 1;
      SendsSplit(trace[..n], k);
      assert trace[..n][..k] == trace[..k];
      assert trace[k..][..n - k] == trace[..n][k..];
    }
  }

  /** The writes in a trace, in order. */
  function Writes(trace: seq<Event>): seq<Write> {
    if trace == [] then []
    else
      var e := trace[|trace| - 1];
      Writes(trace[..|trace| - 1]) + if e.Wrote? then [e.write] else []
  }

  lemma WatchLast(trace: seq<Event>, n: nat)
    requires |trace| == n + 1
    ensures Watch(trace) == Observe(Watch(trace[..n]), trace[n])
  {
    hide Observe;
  }

  lemma NoneAfterLast(trace: seq<Event>, n: nat, from: nat, p: Event -> bool)
    requires |trace| == n + 1 && NoneAfter(trace[..n], from, p) && !p(trace[n])
    ensures NoneAfter(trace, from, p)
  {
    assert forall j | 0 <= j < n :: trace[..n][j] == trace[j];
  }

  lemma {:induction false} WritesSeen(trace: seq<Event>)
    ensures Watch(trace).writes == Writes(trace)
    decreases |trace|
  {
    hide Inside;
    if trace != [] {
      WritesSeen(trace[..|trace| - 1]);
    }
  }

  lemma {:induction false} HandshakeSeen(trace: seq<Event>) returns (h: nat)
    requires Watch(trace).handshake.Some?
    ensures h < |trace| && trace[h] == HandshakeAccepted(Watch(trace).handshake.value)
    decreases |trace|
  {
    hide Inside;
    h := |trace| - 1;
    WatchLast(trace, h);
    if !trace[h].HandshakeAccepted? {
      h := HandshakeSeen(trace[..h]);
    }
  }

  lemma {:induction false} LookupSeen(trace: seq<Event>) returns (l: nat)
    requires Watch(trace).lookup.Some?
    ensures l < |trace| && trace[l].Looked? && trace[l].found == Watch(trace).lookup
    ensures NoneAfter(trace, l + 1, IsLookup())
    decreases |trace|
  {
    hide Inside, NoneAfter;
    var n := |trace| - 1;
    WatchLast(trace, n);
    if trace[n].Looked? {
      l := n;
      NothingAfter(trace, IsLookup());
    } else {
      l := LookupSeen(trace[..n]);
      NoneAfterLast(trace, n, l + 1, IsLookup());
    }
  }

  lemma NothingAfter(trace: seq<Event>, p: Event -> bool)
    ensures NoneAfter(trace, |trace|, p)
  {}

  lemma {:induction false} PayloadSeen(trace: seq<Event>) returns (a: nat)
    requires Watch(trace).payload.Some?
    ensures a < |trace| && trace[a] == PlainAccepted(Watch(trace).payload.value)
    decreases |trace|
  {
    hide Inside;
    a := |trace| - 1;
    WatchLast(trace, a);
    if !trace[a].PlainAccepted? {
      a := PayloadSeen(trace[..a]);
    }
  }

  lemma WaitingStep(w: Setting, m: Seen, e: Event)
    requires Allowed(w, m, e) && Observe(m, e).waiting
    ensures if e.Sent? then m.link == Some(e.addr) && Observe(m, e) == m.(sends := m.sends + 1, asked := e.key,
                                                                          waiting := true, reply := None)
            else m.waiting && Observe(m, e).link == m.link && Observe(m, e).asked == m.asked && !IsRenewal()(e)
  {
    hide Permitted, AnswersCurrent, SessionEnds, NamedTenant, AuthPayload, AskedMechanism, Find, Replay, Inside;
  }

  /** A request waited for is the one sent last, in this turn and on this connection. */
  lemma {:induction false} WaitingSeen(w: Setting, trace: seq<Event>) returns (a: nat)
    requires Safe(w, trace) && Watch(trace).waiting
    ensures a < |trace| && trace[a].Sent? && Watch(trace).link == Some(trace[a].addr)
    ensures trace[a].key == Watch(trace).asked && NoneAfter(trace, a + 1, IsRenewal())
    decreases |trace|
  {
    hide Safe, Allowed, Observe, NoneAfter;
    var n := |trace| - 1;
    SafePrefix(w, trace, n);
    SafeAt(w, trace, n);
    WatchLast(trace, n);
    WaitingStep(w, Watch(trace[..n]), trace[n]);
    if trace[n].Sent? {
      a := n;
      NothingAfter(trace, IsRenewal());
    } else {
      a := WaitingSeen(w, trace[..n]);
      NoneAfterLast(trace, n, a + 1, IsRenewal());
    }
  }

  lemma ReplyStep(w: Setting, m: Seen, e: Event)
    requires Allowed(w, m, e) && Observe(m, e).reply.Some?
    ensures if e.Replied? then m.waiting && m.link == Some(e.addr) && Observe(m, e).reply == Some(e.body)
            else m.reply == Observe(m, e).reply
    ensures Observe(m, e).link == m.link && Observe(m, e).asked == m.asked && !IsRenewal()(e)
  {
    hide Permitted, AnswersCurrent, SessionEnds, NamedTenant, AuthPayload, AskedMechanism, Find, Replay, Inside;
  }

  /** A reply at hand answers the request sent last, in this turn and on this connection. */
  lemma {:induction false} ReplySeen(w: Setting, trace: seq<Event>) returns (a: nat, b: nat)
    requires Safe(w, trace) && Watch(trace).reply.Some?
    ensures a < b < |trace| && trace[a].Sent? && Watch(trace).link == Some(trace[a].addr)
    ensures trace[b] == Replied(trace[a].addr, Watch(trace).reply.value)
    ensures trace[a].key == Watch(trace).asked && NoneAfter(trace, a + 1, IsRenewal())
    decreases |trace|
  {
    hide Safe, Allowed, Observe, NoneAfter;
    var n := |trace| - 1;
    SafePrefix(w, trace, n);
    SafeAt(w, trace, n);
    WatchLast(trace, n);
    ReplyStep(w, Watch(trace[..n]), trace[n]);
    if trace[n].Replied? {
      b := n;
      a := WaitingSeen(w, trace[..n]);
    } else {
      a, b := ReplySeen(w, trace[..n]);
    }
    NoneAfterLast(trace, n, a + 1, IsRenewal());
  }

  lemma VerdictStep(m: Seen, e: Event)
    ensures var verdict := Observe(m, e).now.verdict;
            if e.Verdict? then verdict == Some(e.reply)
            else if e.Received? then verdict == None else verdict == m.now.verdict
  {
    hide Inside;
  }

  lemma ShookStep(w: Setting, m: Seen, e: Event)
    requires Allowed(w, m, e) && Observe(m, e).shook.Some?
    ensures !e.Dialed?
    ensures if e.Replied? && m.asked == SASL_HANDSHAKE
            then m.waiting && m.link == Some(e.addr) && Observe(m, e).shook == Some(e.body)
            else Observe(m, e).shook == m.shook
    ensures Observe(m, e).link == m.link && (IsDial()(e) <==> e.Dialed?)
  {
    hide Permitted, AnswersCurrent, SessionEnds, NamedTenant, AuthPayload, AskedMechanism, Find, Replay, Inside;
  }

  /** A handshake's reply at hand is the reply to a handshake sent on this connection. */
  lemma {:induction false} ShookSeen(w: Setting, trace: seq<Event>) returns (a: nat, b: nat)
    requires Safe(w, trace) && Watch(trace).shook.Some?
    ensures a < b < |trace| && trace[a].Sent? && trace[a].key == SASL_HANDSHAKE
    ensures Watch(trace).link == Some(trace[a].addr) && trace[b] == Replied(trace[a].addr, Watch(trace).shook.value)
    ensures NoneAfter(trace[..b], a + 1, IsRenewal()) && NoneAfter(trace, a + 1, IsDial())
    decreases |trace|
  {
    hide Safe, Allowed, Observe, NoneAfter;
    var n := |trace| - 1;
    SafePrefix(w, trace, n);
    SafeAt(w, trace, n);
    WatchLast(trace, n);
    ShookStep(w, Watch(trace[..n]), trace[n]);
    if trace[n].Replied? && Watch(trace[..n]).asked == SASL_HANDSHAKE {
      b := n;
      a := WaitingSeen(w, trace[..n]);
      RenewalIncludesDial(trace[..n], a + 1);
    } else {
      a, b := ShookSeen(w, trace[..n]);
      assert trace[..n][..b] == trace[..b];
    }
    NoneAfterLast(trace, n, a + 1, IsDial());
  }

  lemma RenewalIncludesDial(trace: seq<Event>, from: nat)
    requires NoneAfter(trace, from, IsRenewal())
    ensures NoneAfter(trace, from, IsDial())
  {
    assert forall j | from <= j < |trace| :: IsDial()(trace[j]) ==> IsRenewal()(trace[j]);
  }

  /** A verdict at hand was given in this turn. */
  lemma {:induction false} VerdictSeen(trace: seq<Event>) returns (v: nat)
    requires Watch(trace).now.verdict.Some?
    ensures v < |trace| && trace[v].Verdict? && trace[v].reply == Watch(trace).now.verdict.value
    ensures NoneAfter(trace, v + 1, IsReceived())
    decreases |trace|
  {
    hide Observe, NoneAfter;
    var n := |trace| - 1;
    WatchLast(trace, n);
    VerdictStep(Watch(trace[..n]), trace[n]);
    if trace[n].Verdict? {
      v := n;
      NothingAfter(trace, IsReceived());
    } else {
      v := VerdictSeen(trace[..n]);
      NoneAfterLast(trace, n, v + 1, IsReceived());
    }
  }

  lemma CurrentStep(w: Setting, m: Seen, e: Event)
    requires Allowed(w, m, e) && Current(Observe(m, e)).Some?
    ensures if e.Received? then Current(Observe(m, e)) == Some(e.frame)
            else Current(m) == Current(Observe(m, e)) && !IsClientSide()(e)
  {
    hide Permitted, SameId, AnswersCurrent, SessionEnds, NamedTenant, AuthPayload, AskedMechanism, Find, Replay, Inside;
  }

  lemma {:induction false} CurrentSeen(w: Setting, trace: seq<Event>) returns (r: nat)
    requires Safe(w, trace) && Current(Watch(trace)).Some?
    ensures r < |trace| && trace[r] == Received(Current(Watch(trace)).value)
    ensures NoneAfter(trace, r + 1, IsClientSide())
    decreases |trace|
  {
    hide Safe, Allowed, Observe, NoneAfter, Current;
    assert Current(NOTHING) == None by { NothingAsked(); }
    var n := |trace| - 1;
    SafePrefix(w, trace, n);
    SafeAt(w, trace, n);
    WatchLast(trace, n);
    CurrentStep(w, Watch(trace[..n]), trace[n]);
    if trace[n].Received? {
      r := n;
      NothingAfter(trace, IsClientSide());
    } else {
      r := CurrentSeen(w, trace[..n]);
      NoneAfterLast(trace, n, r + 1, IsClientSide());
    }
  }

  lemma NothingAsked()
    ensures Current(NOTHING) == None
  {}

  /** The counts, one event on. */
  lemma CountsSnoc(addr: Bytes, since: seq<Event>, e: Event)
    ensures Zeros(addr, since + [e])
            == Zeros(addr, since) + (if e.Verdict? && e.addr == addr && e.reply.code == 0 then 1 else 0)
    ensures Refusals(addr, since + [e])
            == Refusals(addr, since) + (if e.Verdict? && e.addr == addr && e.reply.code != 0 then 1 else 0)
    ensures Sends(since + [e]) == Sends(since) + (if e.Sent? then 1 else 0)
    ensures Finished(addr, since + [e]) <==> Finished(addr, since) || e == SessionDone(addr)
  {
    var longer := since + [e];
    assert longer[..|since|] == since && longer[|since|] == e;
    if Finished(addr, since) {
      var j :| 0 <= j < |since| && since[j] == SessionDone(addr);
      assert longer[j] == SessionDone(addr);
    }
  }

  lemma NothingCounted(addr: Bytes)
    ensures Zeros(addr, []) == 0 && Refusals(addr, []) == 0 && Sends([]) == 0 && !Finished(addr, [])
  {}

  /** What the fold says of the connection dialed last is what the trace shows since. */
  predicate Summarises(m: Seen, addr: Bytes, since: seq<Event>) {
    && m.zeros == Zeros(addr, since) && m.refusals == Refusals(addr, since)
    && m.sends == Sends(since) && m.done == Finished(addr, since)
  }

  lemma LinkStep(w: Setting, m: Seen, e: Event, since: seq<Event>)
    requires Allowed(w, m, e) && !e.Dialed? && m.link.Some? && Summarises(m, m.link.value, since)
    ensures Observe(m, e).link == m.link && Summarises(Observe(m, e), m.link.value, since + [e])
  {
    hide Permitted, AnswersCurrent, SessionEnds, NamedTenant, AuthPayload, AskedMechanism, Find, Replay, Inside;
    hide Zeros, Refusals, Sends, Finished;
    CountsSnoc(m.link.value, since, e);
  }

  lemma DialStep(m: Seen, e: Event)
    ensures if e.Dialed? then Observe(m, e).link == Some(e.addr) && Observe(m, e).dials == m.dials + 1
                              && Summarises(Observe(m, e), e.addr, [])
            else Observe(m, e).link == m.link && Observe(m, e).dials == m.dials
    ensures IsDial()(e) <==> e.Dialed?
  {
    hide Inside;
    if e.Dialed? {
      NothingCounted(e.addr);
    }
  }

  lemma {:induction false} LinkSeen(w: Setting, trace: seq<Event>) returns (d: nat)
    requires Safe(w, trace) && Watch(trace).link.Some?
    ensures d < |trace| && trace[d] == Dialed(Watch(trace).link.value)
    ensures NoneAfter(trace, d + 1, IsDial())
    ensures Summarises(Watch(trace), Watch(trace).link.value, trace[d + 1..])
    decreases |trace|
  {
    hide Safe, Allowed, Observe, NoneAfter, Summarises;
    var n := |trace| - 1;
    SafePrefix(w, trace, n);
    SafeAt(w, trace, n);
    WatchLast(trace, n);
    DialStep(Watch(trace[..n]), trace[n]);
    if trace[n].Dialed? {
      d := n;
      NothingAfter(trace, IsDial());
      assert trace[d + 1..] == [];
    } else {
      d := LinkSeen(w, trace[..n]);
      NoneAfterLast(trace, n, d + 1, IsDial());
      var since := trace[..n][d + 1..];
      assert trace[d + 1..] == since + [trace[n]];
      LinkStep(w, Watch(trace[..n]), trace[n], since);
    }
  }

  /** A longer trace counts as many dials as a shorter one exactly if it shows none after
      it. */
  lemma {:induction false} DialsCounted(trace: seq<Event>, n: nat)
    requires n <= |trace|
    ensures Watch(trace[..n]).dials <= Watch(trace).dials
    ensures Watch(trace[..n]).dials == Watch(trace).dials <==> NoneAfter(trace, n, IsDial())
    decreases |trace|
  {
    hide Observe, Watch;
    if n == |trace| {
      assert trace[..n] == trace;
    } else {
      var k := |trace| - 1;
      DialsCounted(trace[..k], n);
      assert trace[..k][..n] == trace[..n];
      WatchLast(trace, k);
      DialStep(Watch(trace[..k]), trace[k]);
      assert forall j | n <= j < k :: trace[..k][j] == trace[j];
    }
  }
}
