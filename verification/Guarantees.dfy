/** What every run guarantees, about who gets in, what is forwarded where, and what
    clients are told. */
module Guarantees {
  import opened Bytes
  import opened Auth
  import opened Keys
  import Header
  import opened Resolver
  import opened Upstream
  import opened Connection
  import opened Monitor
  import opened Invariant
  import opened Runs

  /** The events of a run. */
  function Trace(w: Setting, io: Io, steps: seq<Step>): seq<Event> {
    After(w, Start(w, io), steps).io.trace
  }

  lemma TraceIsSafe(w: Setting, io: Io, steps: seq<Step>, i: nat)
    requires Consistent(w.start) && i < |Trace(w, io, steps)|
    ensures var trace := Trace(w, io, steps);
            Safe(w, trace) && Safe(w, trace[..i]) && Allowed(w, Watch(trace[..i]), trace[i])
  {
    hide After, Watch, Allowed, Safe, Agrees, Replay, Consistent;
    RunIsGood(w, io, steps);
    SafeAt(w, Trace(w, io, steps), i);
    SafePrefix(w, Trace(w, io, steps), i);
  }

  // ------------------------------------------------------ Authentication safety

  /** The verdicts of `addr` in `since`, the part of a trace after a dial. */
  predicate Approved(cfg: Config, mechanism: Bytes, addr: Bytes, since: seq<Event>) {
    if mechanism == PLAIN
    then && Zeros(addr, since) >= 1 && Refusals(addr, since) == 0
         && (IsScram(cfg.upstreamMechanism) ==> Finished(addr, since))
    else Zeros(addr, since) >= 2
  }

  /** What lies before event i, a request to `addr`. */
  ghost predicate Authorised(cfg: Config, trace: seq<Event>, i: nat, addr: Bytes)
    requires i <= |trace|
  {
    var past := trace[..i];
    exists h, l, d ::
      && 0 <= h < i && past[h].HandshakeAccepted?
      && 0 <= l < i && past[l].Looked? && past[l].found.Some? && past[l].found.value.upstream == addr
      && NoneAfter(past, l + 1, IsLookup())
      && 0 <= d < i && past[d] == Dialed(addr) && NoneAfter(past, d + 1, IsDial())
      && Approved(cfg, past[h].mechanism, addr, past[d + 1..])
  }

  /** In every run, every request kroxy sends upstream, other than those that open the
      connection, comes after an accepted handshake, goes to the upstream of the tenant
      the last lookup found, and goes over a connection, the last one dialed, on which
      that broker has said yes. */
  lemma TrafficIsAuthorised(w: Setting, io: Io, steps: seq<Step>, i: nat)
    requires Consistent(w.start)
    requires var trace := Trace(w, io, steps); i < |trace| && trace[i].Sent? && !OpensConnection(trace[i].key)
    ensures var trace := Trace(w, io, steps); Authorised(w.cfg, trace, i, trace[i].addr)
  {
    hide Trace, Watch, Zeros, Refusals, Finished, IsScram, Safe, ForwardsCurrent;
    TraceIsSafe(w, io, steps, i);
    var trace := Trace(w, io, steps);
    var past := trace[..i];
    var h := HandshakeSeen(past);
    var l := LookupSeen(past);
    var d := LinkSeen(w, past);
    assert Approved(w.cfg, past[h].mechanism, trace[i].addr, past[d + 1..]);
  }

  /** A handshake is accepted once, and stands. */
  lemma {:induction false} HandshakeStands(w: Setting, trace: seq<Event>, h: nat, i: nat)
    requires Safe(w, trace) && h < i <= |trace| && trace[h].HandshakeAccepted?
    ensures Watch(trace[..i]).handshake == Some(trace[h].mechanism)
  {
    hide Safe, Allowed, Observe, Watch;
    var n := i - 1;
    SafeAt(w, trace, n);
    WatchLast(trace[..i], n);
    assert trace[..i][..n] == trace[..n];
    HandshakeStep(w, Watch(trace[..n]), trace[n]);
    if h < n {
      HandshakeStands(w, trace, h, n);
    }
  }

  lemma HandshakeStep(w: Setting, m: Seen, e: Event)
    requires Allowed(w, m, e)
    ensures Observe(m, e).handshake == if e.HandshakeAccepted? then Some(e.mechanism) else m.handshake
    ensures e.HandshakeAccepted? ==> m.handshake == None
  {
    hide Permitted, AnswersCurrent, SessionEnds, NamedTenant, AuthPayload, AskedMechanism, Find, Replay, Inside;
  }

  /** Event r is the client's latest frame before event i, and still unanswered. */
  ghost predicate Handling(trace: seq<Event>, r: nat, i: nat) {
    r < i <= |trace| && trace[r].Received? && NoneAfter(trace[..i], r + 1, IsClientSide())
  }

  /** Its header, and the SASL payload it carries. */
  predicate Authenticates(lib: Library, frame: Bytes, payload: Bytes) {
    && HeaderOf(frame).Some?
    && var h := HeaderOf(frame).value;
       h.key == SASL_AUTHENTICATE && lib.authPayload(h.version, frame[h.size..]) == Some(payload)
  }

  lemma AskedSeen(w: Setting, trace: seq<Event>, i: nat) returns (r: nat)
    requires i <= |trace| && Safe(w, trace[..i]) && Asked(Watch(trace[..i])).Some?
    ensures Handling(trace, r, i) && Current(Watch(trace[..i])) == Some(trace[r].frame)
    ensures HeaderOf(trace[r].frame).Some?
    ensures var h := HeaderOf(trace[r].frame).value;
            Asked(Watch(trace[..i])) == Some((h, trace[r].frame[h.size..]))
  {
    hide HeaderOf, Watch, Safe, NoneAfter;
    r := CurrentSeen(w, trace[..i]);
  }

  /** In every run, the payload of a SCRAM client's SaslAuthenticate request goes to the
      broker as it came, and no other payload does. */
  lemma ScramPayloadsPassThrough(w: Setting, io: Io, steps: seq<Step>, h: nat, i: nat) returns (r: nat)
    requires Consistent(w.start)
    requires var trace := Trace(w, io, steps);
             && h < i < |trace| && trace[h].HandshakeAccepted? && trace[h].mechanism != PLAIN
             && trace[i].Sent? && trace[i].key == SASL_AUTHENTICATE
    ensures var trace := Trace(w, io, steps);
            && Handling(trace, r, i) && trace[i].out.Typed?
            && Authenticates(w.lib, trace[r].frame, trace[i].out.body)
  {
    hide Trace, Watch, Safe, NoneAfter, HeaderOf;
    TraceIsSafe(w, io, steps, i);
    var trace := Trace(w, io, steps);
    HandshakeStands(w, trace, h, i);
    r := AskedSeen(w, trace, i);
  }

  /** In every run, the credentials kroxy passes on for a PLAIN client are those a request
      of that client gave, whatever has happened to the catalogue since; where they are
      translated, what is passed on are the messages of a SCRAM session with them. */
  lemma PlainCredentialsPassThrough(w: Setting, io: Io, steps: seq<Step>, h: nat, i: nat) returns (r: nat, a: nat)
    requires Consistent(w.start)
    requires var trace := Trace(w, io, steps);
             && h < i < |trace| && trace[h] == HandshakeAccepted(PLAIN)
             && trace[i].Sent? && trace[i].key == SASL_AUTHENTICATE
    ensures var trace := Trace(w, io, steps);
            && a < i && trace[a].PlainAccepted? && Handling(trace, r, a) && trace[i].out.Typed?
            && Authenticates(w.lib, trace[r].frame, trace[a].payload) && Plain(trace[a].payload).Some?
            && var c := Plain(trace[a].payload).value;
               var heard := Watch(trace[..i]).heard;
               var mechanism := w.cfg.upstreamMechanism;
               var body := trace[i].out.body;
               if !IsScram(mechanism) then Plain(body) == Some(PlainCredentials([], c.username, c.password))
               else if heard == [] then w.lib.scramFirst(mechanism, c.username, c.password) == Some(body)
               else var next := w.lib.scramNext(mechanism, c.username, c.password, heard);
                    next.Some? && next.value.1 == body
  {
    hide Trace, Watch, Safe, NoneAfter, HeaderOf, Plain, IsScram;
    TraceIsSafe(w, io, steps, i);
    var trace := Trace(w, io, steps);
    HandshakeStands(w, trace, h, i);
    a := PayloadSeen(trace[..i]);
    TraceIsSafe(w, io, steps, a);
    r := AskedSeen(w, trace, a);
  }

  /** In every run, no credentials and no SCRAM message go out but on a connection on which
      that broker has answered the handshake with code 0. */
  lemma CredentialsFollowHandshake(w: Setting, io: Io, steps: seq<Step>, i: nat) returns (a: nat, b: nat)
    requires Consistent(w.start)
    requires var trace := Trace(w, io, steps);
             i < |trace| && trace[i].Sent? && trace[i].key == SASL_AUTHENTICATE
    ensures var trace := Trace(w, io, steps);
            && a < b < i && NoneAfter(trace[..i], a + 1, IsDial()) && NoneAfter(trace[..b], a + 1, IsRenewal())
            && trace[a].Sent? && trace[a].key == SASL_HANDSHAKE && trace[a].addr == trace[i].addr
            && trace[b].Replied? && trace[b].addr == trace[i].addr
            && w.lib.handshakeCode(trace[b].body) == Some(0)
  {
    hide Trace, Watch, Safe, NoneAfter, MayAuthenticate;
    TraceIsSafe(w, io, steps, i);
    a, b := ShookSeen(w, Trace(w, io, steps)[..i]);
    assert Trace(w, io, steps)[..i][..b] == Trace(w, io, steps)[..b];
  }

  /** In every run, a verdict is the broker's: its reply to the latest authentication
      message, which it got on the same connection and while the same request was being
      handled. */
  lemma VerdictsAreTheBrokers(w: Setting, io: Io, steps: seq<Step>, v: nat) returns (a: nat, b: nat)
    requires Consistent(w.start)
    requires var trace := Trace(w, io, steps); v < |trace| && trace[v].Verdict?
    ensures var trace := Trace(w, io, steps);
            && a < b < v && NoneAfter(trace[..v], a + 1, IsRenewal())
            && trace[a].Sent? && trace[a].key == SASL_AUTHENTICATE && trace[a].addr == trace[v].addr
            && trace[b].Replied? && trace[b].addr == trace[v].addr
            && w.lib.authReply(trace[b].body) == Some(trace[v].reply)
  {
    hide Trace, Watch, Safe, NoneAfter;
    TraceIsSafe(w, io, steps, v);
    a, b := ReplySeen(w, Trace(w, io, steps)[..v]);
  }

  // -------------------------------------------------------------------- Traffic

  /** In every run, what is forwarded upstream is the request being handled, its names
      under the prefix of the tenant the last lookup found; nothing else is, and nothing
      under another prefix. */
  lemma TrafficIsTheTenants(w: Setting, io: Io, steps: seq<Step>, i: nat) returns (r: nat, l: nat)
    requires Consistent(w.start)
    requires var trace := Trace(w, io, steps); i < |trace| && trace[i].Sent? && !OpensConnection(trace[i].key)
    ensures var trace := Trace(w, io, steps);
            && Handling(trace, r, i)
            && l < i && trace[l].Looked? && trace[l].found.Some? && NoneAfter(trace[..i], l + 1, IsLookup())
            && HeaderOf(trace[r].frame).Some?
            && var h := HeaderOf(trace[r].frame).value;
               && trace[i].key == h.key
               && (if NamesThings(h.key)
                   then && trace[i].out.Typed?
                        && trace[i].out.version == h.version && trace[i].out.clientId == h.clientId
                        && var prefix := trace[l].found.value.topicPrefix;
                           w.lib.rewriteIn(h.key, h.version, prefix, trace[r].frame[h.size..])
                           == Some(trace[i].out.body)
                   else trace[i].out.Copied? && OnlyIdDiffers(trace[r].frame, trace[i].out.frame, trace[i].cid))
  {
    hide Trace, Watch, HeaderOf, Safe, OnlyIdDiffers, Cleared, NamesThings, NoneAfter, Asked;
    TraceIsSafe(w, io, steps, i);
    var trace := Trace(w, io, steps);
    r := AskedSeen(w, trace, i);
    l := LookupSeen(trace[..i]);
  }

  /** In every run, what a client is answered, to a request that is not kroxy's own to
      answer, is the broker's reply to the last thing sent for that request, stripped of
      the prefix of the tenant the last lookup found. */
  lemma AnswersAreTheBrokers(w: Setting, io: Io, steps: seq<Step>, i: nat) returns (r: nat, a: nat, b: nat, l: nat)
    requires Consistent(w.start)
    requires var trace := Trace(w, io, steps); i < |trace| && trace[i].Answered?
    ensures var trace := Trace(w, io, steps);
            && Handling(trace, r, i) && SameId(trace[r].frame, trace[i].frame)
            && HeaderOf(trace[r].frame).Some?
            && var h := HeaderOf(trace[r].frame).value;
               !OpensConnection(h.key) ==>
               && r < a < b < i && NoneAfter(trace[..i], a + 1, IsRenewal())
               && trace[a].Sent? && trace[a].key == h.key
               && trace[b].Replied? && trace[b].addr == trace[a].addr
               && l < i && trace[l].Looked? && trace[l].found.Some? && NoneAfter(trace[..i], l + 1, IsLookup())
               && (if NamesThings(h.key)
                   then var out := w.lib.rewriteOut(h.key, h.version, trace[l].found.value.topicPrefix, trace[b].body);
                        out.Some? && trace[i].frame == ResponseTo(h) + out.value
                   else trace[i].frame == PutInt32(h.correlationId) + trace[b].body)
  {
    hide Trace, Watch, HeaderOf, Safe, SameId, SaysTruth, NamesThings, NoneAfter, ResponseTo, Asked;
    TraceIsSafe(w, io, steps, i);
    var trace := Trace(w, io, steps);
    r := AskedSeen(w, trace, i);
    a, b, l := 0, 0, 0;
    if !OpensConnection(HeaderOf(trace[r].frame).value.key) {
      l := LookupSeen(trace[..i]);
      a, b := ReplySeen(w, trace[..i]);
      SentInTurn(trace, r, a, i);
    }
  }

  /** An exchange that nothing received has renewed lies behind the last frame received. */
  lemma SentInTurn(trace: seq<Event>, r: nat, a: nat, i: nat)
    requires Handling(trace, r, i) && a < i && trace[a].Sent? && NoneAfter(trace[..i], a + 1, IsRenewal())
    ensures r < a
  {
    assert IsRenewal()(trace[..i][r]);
  }

  // ------------------------------------------------------- What clients are told

  function IsHandshake(): Event -> bool { (e: Event) => e.HandshakeAccepted? }
  function IsAdmission(): Event -> bool { (e: Event) => e.PlainAccepted? }
  function IsVerdict(): Event -> bool { (e: Event) => e.Verdict? }

  /** Some event from `from` on and before `to` is a `p`. */
  ghost predicate Happened(trace: seq<Event>, from: nat, to: nat, p: Event -> bool)
    requires to <= |trace|
  {
    exists j :: from <= j < to && p(trace[j])
  }

  lemma {:induction false} HandshakeKnown(trace: seq<Event>, n: nat)
    requires n <= |trace|
    ensures Watch(trace[..n]).handshake.Some? <==> Happened(trace, 0, n, IsHandshake())
  {
    hide Inside;
    if n > 0 {
      HandshakeKnown(trace, n - 1);
      WatchLast(trace[..n], n - 1);
      assert trace[..n][..n - 1] == trace[..n - 1];
      HappenedLast(trace, 0, n - 1, IsHandshake());
    }
  }

  lemma HappenedLast(trace: seq<Event>, from: nat, n: nat, p: Event -> bool)
    requires from <= n < |trace|
    ensures Happened(trace, from, n + 1, p) <==> Happened(trace, from, n, p) || p(trace[n])
  {}

  lemma TurnStep(m: Seen, e: Event)
    requires !IsClientSide()(e)
    ensures Observe(m, e).now
            == m.now.(accepted := m.now.accepted || e.HandshakeAccepted?,
                      admitted := m.now.admitted || e.PlainAccepted?,
                      verdict := if e.Verdict? then Some(e.reply) else m.now.verdict)
  {
    hide Inside;
  }

  /** What the fold says of a turn is what the trace shows of it. */
  lemma {:induction false} TurnSeen(trace: seq<Event>, r: nat, i: nat)
    requires Handling(trace, r, i)
    ensures var now := Watch(trace[..i]).now;
            && (now.hadHandshake <==> Happened(trace, 0, r, IsHandshake()))
            && (now.wasIn <==> Inside(Watch(trace[..r])))
            && (now.accepted <==> Happened(trace, r + 1, i, IsHandshake()))
            && (now.admitted <==> Happened(trace, r + 1, i, IsAdmission()))
            && (now.verdict.Some? <==> Happened(trace, r + 1, i, IsVerdict()))
    decreases i
  {
    hide Observe, Watch, Happened, Inside;
    var n := i - 1;
    WatchLast(trace[..i], n);
    assert trace[..i][..n] == trace[..n];
    if n == r {
      ReceivedStep(Watch(trace[..r]), trace[r]);
      HandshakeKnown(trace, r);
      NothingHappened(trace, i, IsHandshake());
      NothingHappened(trace, i, IsAdmission());
      NothingHappened(trace, i, IsVerdict());
    } else {
      assert !IsClientSide()(trace[..i][n]) && forall j | 0 <= j < n :: trace[..i][j] == trace[..n][j];
      TurnSeen(trace, r, n);
      TurnStep(Watch(trace[..n]), trace[n]);
      HappenedLast(trace, r + 1, n, IsHandshake());
      HappenedLast(trace, r + 1, n, IsAdmission());
      HappenedLast(trace, r + 1, n, IsVerdict());
    }
  }

  lemma ReceivedStep(m: Seen, e: Event)
    requires e.Received?
    ensures Observe(m, e).now == Turn(m.handshake.Some?, Inside(m), false, false, None)
  {}

  lemma NothingHappened(trace: seq<Event>, n: nat, p: Event -> bool)
    requires n <= |trace|
    ensures !Happened(trace, n, n, p)
  {}

  /** `reply` tells what the trace shows of the request in event r, answered in event i.
      A handshake for `mechanism`: code 0 exactly if it was accepted, 34 exactly if an
      earlier one was, 33 exactly if none was and the mechanism is not supported. An
      authentication message on which the broker gave a verdict: that verdict, word for word.
      Any other: code 0 exactly if it let the client in, 34 exactly if the client was in
      already or there had been no handshake, else 58. */
  ghost predicate Tells(trace: seq<Event>, r: nat, i: nat, key: int16, mechanism: Option<Bytes>, reply: Reply)
    requires r < i <= |trace|
  {
    if key == API_VERSIONS then reply == ApiVersionsReply
    else if key == SASL_HANDSHAKE then
      && reply.HandshakeReply?
      && (reply.code == 0 <==> Happened(trace, r + 1, i, IsHandshake()))
      && (reply.code == 34 <==> Happened(trace, 0, r, IsHandshake()))
      && mechanism.Some?
      && (reply.code == 33 <==> !Happened(trace, 0, r, IsHandshake()) && !Supported(mechanism.value))
      && (reply.code == 0 || reply.code == 33 || reply.code == 34)
    else
      && reply.AuthenticateReply?
      && if Happened(trace, r + 1, i, IsVerdict())
         then exists v :: r < v < i && trace[v].Verdict? && trace[v].reply == reply.reply
         else && (reply.reply.code == 0 <==> Happened(trace, r + 1, i, IsAdmission()))
              && (reply.reply.code == 0 || reply.reply.code == 34 || reply.reply.code == 58)
              && (reply.reply.code == 34
                  <==> Inside(Watch(trace[..r])) || !Happened(trace, 0, r, IsHandshake()))
  }

  /** In every run, every answer to one of kroxy's own requests tells what the trace
      shows. */
  lemma AnswersTellTheTruth(w: Setting, io: Io, steps: seq<Step>, i: nat) returns (r: nat, reply: Reply)
    requires Consistent(w.start)
    requires var trace := Trace(w, io, steps); i < |trace| && trace[i].Answered?
    ensures var trace := Trace(w, io, steps);
            && Handling(trace, r, i) && HeaderOf(trace[r].frame).Some?
            && var h := HeaderOf(trace[r].frame).value;
               OpensConnection(h.key) ==>
               && trace[i].frame == ResponseTo(h) + w.lib.encode(h.version, reply)
               && var mechanism := w.lib.handshakeMechanism(h.version, trace[r].frame[h.size..]);
                  Tells(trace, r, i, h.key, mechanism, reply)
  {
    hide Trace, Watch, HeaderOf, Safe, SameId, NoneAfter, ResponseTo, Asked, ForwardsReply, Tells, Truthful;
    TraceIsSafe(w, io, steps, i);
    var trace := Trace(w, io, steps);
    r := AskedSeen(w, trace, i);
    var h := HeaderOf(trace[r].frame).value;
    if OpensConnection(h.key) {
      reply :| trace[i].frame == ResponseTo(h) + w.lib.encode(h.version, reply)
               && Truthful(w, Watch(trace[..i]), h.key, reply);
      var mechanism := w.lib.handshakeMechanism(h.version, trace[r].frame[h.size..]);
      assert h.key == SASL_HANDSHAKE ==> AskedMechanism(w, Watch(trace[..i])) == mechanism;
      TruthIsSeen(w, trace, r, i, h.key, mechanism, reply);
    } else {
      reply := ApiVersionsReply;
    }
  }

  lemma TruthIsSeen(
      w: Setting, trace: seq<Event>, r: nat, i: nat, key: int16, mechanism: Option<Bytes>, reply: Reply)
    requires Handling(trace, r, i) && OpensConnection(key) && Truthful(w, Watch(trace[..i]), key, reply)
    requires key == SASL_HANDSHAKE ==> AskedMechanism(w, Watch(trace[..i])) == mechanism
    ensures Tells(trace, r, i, key, mechanism, reply)
  {
    hide Watch, Happened, Inside, NoneAfter, AskedMechanism, Supported;
    TurnSeen(trace, r, i);
    if Watch(trace[..i]).now.verdict.Some? {
      var v := VerdictSeen(trace[..i]);
      VerdictInTurn(trace, r, v, i);
      assert trace[v].Verdict? && trace[v].reply == Watch(trace[..i]).now.verdict.value;
    }
  }

  lemma VerdictInTurn(trace: seq<Event>, r: nat, v: nat, i: nat)
    requires Handling(trace, r, i) && v < i && trace[v].Verdict? && NoneAfter(trace[..i], v + 1, IsReceived())
    ensures r < v
  {
    assert IsReceived()(trace[..i][r]);
  }

  // ------------------------------------------------------- Ordering and correlation

  /** However many requests a client has sent, it has an answer to each of them, in
      order and under its own correlation id; only the last may lack one, and then the
      connection has ended. */
  lemma OneAnswerEach(w: Setting, io: Io, steps: seq<Step>)
    requires Consistent(w.start)
    ensures var y := After(w, Start(w, io), steps);
            var m := Watch(y.io.trace);
            && InOrder(m)
            && (!y.ended ==> |m.answers| == |m.requests|)
  {
    hide After, Watch, InOrder, Agrees, Safe, Replay, Consistent;
    RunIsGood(w, io, steps);
    AnswersInOrder(w, After(w, Start(w, io), steps).io.trace);
  }

  /** The id of a request sent upstream is its number on its connection, as an int32. */
  lemma IdsCount(w: Setting, io: Io, steps: seq<Step>, i: nat) returns (d: nat)
    requires Consistent(w.start)
    requires var trace := Trace(w, io, steps); i < |trace| && trace[i].Sent?
    ensures var trace := Trace(w, io, steps);
            && d < i && trace[d] == Dialed(trace[i].addr) && NoneAfter(trace[..i], d + 1, IsDial())
            && trace[i].cid == IdAfter(Sends(trace[d + 1..i]) + 1)
  {
    hide Trace, Watch, Permitted, IdAfter, Safe, Zeros, Refusals, Finished;
    TraceIsSafe(w, io, steps, i);
    var trace := Trace(w, io, steps);
    d := LinkSeen(w, trace[..i]);
    assert trace[..i][d + 1..] == trace[d + 1..i];
  }

  /** Two requests on one connection share an id exactly when a multiple of 2^32
      requests separates them. */
  lemma IdsDistinctIff(w: Setting, io: Io, steps: seq<Step>, i: nat, j: nat)
    requires Consistent(w.start) && i < j
    requires var trace := Trace(w, io, steps);
             && j < |trace| && trace[i].Sent? && trace[j].Sent?
             && NoneAfter(trace[..j], i, IsDial())
    ensures var trace := Trace(w, io, steps);
            trace[i].cid == trace[j].cid <==> Sends(trace[i..j]) % 0x1_0000_0000 == 0
  {
    hide Trace, IdAfter, Sends;
    var trace := Trace(w, io, steps);
    var d := IdsCount(w, io, steps, i);
    var e := IdsCount(w, io, steps, j);
    assert IsDial()(trace[d]) && IsDial()(trace[e]);
    assert e < i by { assert trace[..j][e] == trace[e]; }
    assert trace[..i][e] == trace[e] && trace[..j][d] == trace[d];
    assert d == e;
    SendsSplit(trace[d + 1..j], i - d - 1);
    assert trace[d + 1..j][..i - d - 1] == trace[d + 1..i];
    assert trace[d + 1..j][i - d - 1..] == trace[i..j];
    IdsRepeatIff(Sends(trace[d + 1..i]) + 1, Sends(trace[d + 1..j]) + 1);
  }
}
