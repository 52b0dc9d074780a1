/** Runs, from a fresh connection, in which what the other modules allow for comes to pass: a
    rejected reply that does not end the connection, a reply that crashes the process, and a
    name that goes out without a prefix. */
module Witnesses {
  import opened Bytes
  import opened Framing
  import opened Auth
  import Header
  import Keys
  import opened Resolver
  import opened Upstream
  import opened Connection
  import opened Dialing
  import opened Monitor
  import opened Runs

  const ALICE: Bytes := Ascii("alice")
  const TENANT := Tenant(ALICE, ALICE, ALICE)

  lemma AliceIsValid()
    ensures Consistent(map[ALICE := TENANT]) && NUL !in ALICE && ALICE != []
  {
    assert |ALICE| == 5;
  }

  /** A frame that is a header and nothing else. */
  function Bare(key: int16, version: int16): Bytes { Header.EncodeHeader(key, version, 0, None, []) }

  predicate Opens(frame: Bytes, key: int16, version: int16) {
    && Sendable(frame) && HeaderOf(frame).Some?
    && HeaderOf(frame).value.key == key && HeaderOf(frame).value.version == version
  }

  lemma BareOpens(key: int16, version: int16)
    ensures Opens(Bare(key, version), key, version)
  {
    hide Header.ParseInt64, Header.EncodeHeader;
    var frame := Bare(key, version);
    assert 1 <= |frame| <= 20 by { BareIsShort(key, version); }
    assert frame + [] == frame;
    Header.HeaderRoundTrip(key, version, 0, None, [], []);
  }

  lemma BareIsShort(key: int16, version: int16)
    ensures 1 <= |Bare(key, version)| <= 20
  {
    hide Keys.RequestHeaderVersion;
    assert Header.EncodeTags([]) == [];
  }

  lemma TwoSteps(w: Setting, y: System, steps: seq<Step>)
    requires Linked(y.conn) && |steps| == 2
    ensures After(w, y, steps[..1]) == Next(w, y, steps[0])
    ensures After(w, y, steps) == Next(w, Next(w, y, steps[0]), steps[1])
  {
    hide Next;
    assert steps[..1][..0] == [];
  }

  lemma ThreeSteps(w: Setting, y: System, steps: seq<Step>)
    requires Linked(y.conn) && |steps| == 3
    ensures After(w, y, steps) == Next(w, Next(w, Next(w, y, steps[0]), steps[1]), steps[2])
  {
    hide Next;
    TwoSteps(w, y, steps[..2]);
  }

  /** The first handshake, on a connection whose client can be written to. */
  lemma ShakesHands(w: Setting, io: Io, frame: Bytes, mechanism: Bytes)
    requires Opens(frame, Keys.SASL_HANDSHAKE, 0) && (mechanism == PLAIN || IsScram(mechanism))
    requires var h := HeaderOf(frame).value;
             w.lib.handshakeMechanism(h.version, frame[h.size..]) == Some(mechanism)
    requires io.writes != [] && io.writes[0]
    ensures var z := Next(w, Start(w, io), ClientSends(frame));
            && z == System(w.start, FRESH.(phase := AwaitAuth, mechanism := mechanism), z.io, false)
            && z.io == Io(z.io.trace, io.replies, io.dials, io.writes[1..], false)
  {
    hide HeaderOf, ResponseFrame, IsScram;
  }

  // -------------------------------------------------- A rejected reply survived

  /** A client-first-message that names `ALICE`. */
  const FIRST := ClientFirst([], None, ALICE, [])

  /** Every handshake asks for SCRAM, and every authentication message is that one. */
  function ScramLibrary(): Library {
    Library((_, _) => Some(SCRAM_SHA_256), (_, _) => Some(ClientFirstMessage(FIRST)), _ => None, _ => None,
            (_, _, _) => None, (_, _, _, _) => None, (_, _, _, _) => None, (_, _, _, _) => None, (_, _) => [])
  }

  /** A SCRAM handshake, then a first message for a tenant whose broker takes the dial and
      then sends nothing: the connection stays open, at its second step. */
  lemma RejectedReplySurvives() returns (w: Setting, io: Io, steps: seq<Step>)
    ensures Consistent(w.start) && |steps| == 2
    ensures var y, z := After(w, Start(w, io), steps[..1]), After(w, Start(w, io), steps);
            && z == Next(w, y, steps[1])
            && Watch(z.io.trace).rejected > Watch(y.io.trace).rejected
            && !z.ended && z.conn.phase == AwaitAuth
  {
    hide Bare, HeaderOf, Sendable, After, Connection.Serve, Watch, IsScram, Consistent;
    AliceIsValid();
    w := Setting(ScramLibrary(), Config([]), map[ALICE := TENANT]);
    io := Io([], [], [true], [true, true], false);
    var f1, f2 := Bare(Keys.SASL_HANDSHAKE, 0), Bare(Keys.SASL_AUTHENTICATE, 0);
    BareOpens(Keys.SASL_HANDSHAKE, 0);
    BareOpens(Keys.SASL_AUTHENTICATE, 0);
    steps := [ClientSends(f1), ClientSends(f2)];
    TwoSteps(w, Start(w, io), steps);
    assert IsScram(SCRAM_SHA_256) by { ScramIsScram(); }
    ShakesHands(w, io, f1, SCRAM_SHA_256);
    DropsDial(w, Next(w, Start(w, io), ClientSends(f1)).io, f2);
  }

  lemma ScramIsScram()
    ensures IsScram(SCRAM_SHA_256)
  {}

  lemma DropsDial(w: Setting, io: Io, frame: Bytes)
    requires w.lib == ScramLibrary() && io == Io(io.trace, [], [true], [true], false)
    requires w.start == map[ALICE := TENANT] && Opens(frame, Keys.SASL_AUTHENTICATE, 0)
    ensures var s := FRESH.(phase := AwaitAuth, mechanism := SCRAM_SHA_256);
            var r := Connection.Serve(w.lib, w.cfg, w.start, s, io, frame);
            && r.ok && r.state.phase == AwaitAuth && Watch(r.io.trace).rejected > Watch(io.trace).rejected
  {
    hide HeaderOf, ResponseFrame, ParseClientFirst, ClientFirstMessage, Watch, Inside, Sendable;
    AliceIsValid();
    ClientFirstIff(ClientFirstMessage(FIRST), FIRST);
    var s := FRESH.(phase := AwaitAuth, mechanism := SCRAM_SHA_256);
    var r := Connection.Serve(w.lib, w.cfg, w.start, s, io, frame);
    assert r.io.trace[|io.trace| + 4] == ReplyRejected(ALICE);
    RejectionShows(r.io.trace, |io.trace|, |io.trace| + 4);
    assert r.io.trace[..|io.trace|] == io.trace;
  }

  lemma RejectionStep(m: Seen, e: Event)
    ensures Observe(m, e).rejected == m.rejected + if e.ReplyRejected? then 1 else 0
  {
    hide Inside;
  }

  lemma {:induction false} RejectionShows(trace: seq<Event>, n: nat, j: nat)
    requires n <= |trace|
    ensures Watch(trace).rejected >= Watch(trace[..n]).rejected
    ensures n <= j < |trace| && trace[j].ReplyRejected? ==> Watch(trace).rejected > Watch(trace[..n]).rejected
    decreases |trace|
  {
    hide Observe, Watch;
    if n == |trace| {
      assert trace[..n] == trace;
    } else {
      var k := |trace| - 1;
      WatchLast(trace, k);
      RejectionStep(Watch(trace[..k]), trace[k]);
      assert trace[..k][..n] == trace[..n];
      RejectionShows(trace[..k], n, j);
    }
  }

  // ------------------------------------------------------- A reply that is too short

  /** Every handshake asks for PLAIN, every authentication message gives `ALICE`'s
      credentials, and the broker approves of everything. */
  function PlainLibrary(): Library {
    Library((_, _) => Some(PLAIN), (_, _) => Some(PlainMessage(PlainCredentials([], ALICE, []))), _ => Some(0),
            _ => Some(AuthReply([], 0, [])), (_, _, _) => None, (_, _, _, _) => None,
            (_, _, _, _) => Some([]), (_, _, _, _) => None, (_, _) => [])
  }

  /** Replies of four bytes, under the ids from `n` to 4. */
  function Replies(n: nat): seq<ReadResult>
    requires 1 <= n <= 5
    decreases 5 - n
  {
    if n == 5 then [] else [Frame(PutInt32(n))] + Replies(n + 1)
  }

  /** A PLAIN handshake, credentials, and a Fetch of a flexible version, answered by four
      bytes under the right id: the header of its response has five, and the process
      crashes, at the third step. */
  lemma ShortReplyCrashes() returns (w: Setting, io: Io, steps: seq<Step>)
    ensures Consistent(w.start) && |steps| == 3
    ensures After(w, Start(w, io), steps).io.crashed
  {
    hide Bare, HeaderOf, Sendable, After, Next, Consistent, IsScram, Replies;
    AliceIsValid();
    w := Setting(PlainLibrary(), Config([]), map[ALICE := TENANT]);
    io := Io([], Replies(1), [true], [true, true], false);
    var f1, f2, f3 := Bare(Keys.SASL_HANDSHAKE, 0), Bare(Keys.SASL_AUTHENTICATE, 0), Bare(Keys.FETCH, 12);
    BareOpens(Keys.SASL_HANDSHAKE, 0);
    BareOpens(Keys.SASL_AUTHENTICATE, 0);
    BareOpens(Keys.FETCH, 12);
    steps := [ClientSends(f1), ClientSends(f2), ClientSends(f3)];
    ThreeSteps(w, Start(w, io), steps);
    ShakesHands(w, io, f1, PLAIN);
    var y1 := Next(w, Start(w, io), steps[0]);
    LetsIn(w, y1, f2);
    FallsShort(w, Next(w, y1, steps[1]), f3);
  }

  lemma LetsIn(w: Setting, y: System, frame: Bytes)
    requires w.lib == PlainLibrary() && w.start == map[ALICE := TENANT]
    requires y == System(w.start, FRESH.(phase := AwaitAuth, mechanism := PLAIN), y.io, false)
    requires y.io == Io(y.io.trace, Replies(1), [true], [true], false) && Opens(frame, Keys.SASL_AUTHENTICATE, 0)
    ensures var z := Next(w, y, ClientSends(frame));
            && z.conn == FRESH.(phase := Authenticated, mechanism := PLAIN, tenant := TENANT)
            && z.io == Io(z.io.trace, Replies(1), [true], [], false) && !z.ended
  {
    hide HeaderOf, ResponseFrame, Plain, Replies;
    AliceIsValid();
    MechanismsDiffer();
    PlainIff(PlainMessage(PlainCredentials([], ALICE, [])), PlainCredentials([], ALICE, []));
  }

  /** The broker's first three frames let the client through, and the fourth is next. */
  lemma ReachesAtFour(w: Setting, y: System, io: Io)
    requires w.lib == PlainLibrary() && w.cfg == Config([]) && io.replies == Replies(1) && io.dials == [true]
    requires y.conn == FRESH.(phase := Authenticated, mechanism := PLAIN, tenant := TENANT)
    ensures Reaches(w.lib, w.cfg, y.conn, io, 3, 4) && Skip(io.replies, 3) == Replies(4)
  {
    hide Replies, IsScram, Content, Skip, Keys.IsFlexibleRequest;
    MechanismsDiffer();
    OpenersAreNotFlexible();
    SmallIds();
    NextReply(1, Keys.API_VERSIONS, 0);
    NextReply(2, Keys.SASL_HANDSHAKE, 1);
    NextReply(3, Keys.SASL_AUTHENTICATE, 1);
    SkipReplies();
  }

  lemma OpenersAreNotFlexible()
    ensures !Keys.IsFlexibleRequest(Keys.SASL_HANDSHAKE, 1) && !Keys.IsFlexibleRequest(Keys.SASL_AUTHENTICATE, 1)
    ensures IdAfter(4) == 4
  {}

  lemma SkipReplies()
    ensures Skip(Replies(1), 1) == Replies(2) && Skip(Replies(1), 2) == Replies(3) && Skip(Replies(1), 3) == Replies(4)
  {
    hide Replies, Skip;
    NextReply(1, 0, 0);
    NextReply(2, 0, 0);
    NextReply(3, 0, 0);
    SkipRest(Replies(1), 0);
    SkipRest(Replies(1), 1);
    SkipRest(Replies(1), 2);
    SkipRest(Replies(2), 0);
    SkipRest(Replies(2), 1);
    SkipRest(Replies(3), 0);
    SkipRest(Replies(4), 0);
  }

  lemma NextReply(n: nat, key: int16, version: int16)
    requires 1 <= n <= 4
    ensures Rest(Replies(n)) == Replies(n + 1) && Under(Replies(n), n) == Some(PutInt32(n))
    ensures Content(Replies(n), key, version, n)
            == if Keys.IsFlexibleRequest(key, version) && key != Keys.API_VERSIONS then None else Some([])
  {
    hide PutInt32, Keys.IsFlexibleRequest;
    assert Replies(n)[1..] == Replies(n + 1);
    assert PutInt32(n)[..4] == PutInt32(n) && PutInt32(n)[4..] == [];
  }

  lemma FallsShort(w: Setting, y: System, frame: Bytes)
    requires w.lib == PlainLibrary() && w.cfg == Config([]) && Opens(frame, Keys.FETCH, 12) && !y.ended
    requires y.conn == FRESH.(phase := Authenticated, mechanism := PLAIN, tenant := TENANT)
    requires y.io == Io(y.io.trace, Replies(1), [true], [], false)
    ensures Next(w, y, ClientSends(frame)).io.crashed
  {
    hide HeaderOf, Reaches, Header.FrameGoesNegative, Next, Replies, Content, Under;
    var h := HeaderOf(frame).value;
    var io := Log(y.io, Received(frame));
    ReachesAtFour(w, y, io);
    NextReply(4, Keys.FETCH, 12);
    assert ReplyFallsShort(w.lib, w.cfg, y.conn, io, h, frame[h.size..]);
    CrashesIff(w, y, ClientSends(frame));
  }

  // --------------------------------------------------- A name that goes out as it came

  /** The same client, and an OffsetForLeaderEpoch request, which names topics: it goes out as
      it came, but for its id, and no prefix is put to the names in it. */
  lemma UnadvertisedGoesRaw() returns (w: Setting, io: Io, steps: seq<Step>, i: nat)
    ensures Consistent(w.start) && |steps| == 3 && steps[2].ClientSends?
    ensures Keys.Topic in Keys.Names(Keys.OFFSET_FOR_LEADER_EPOCH)
    ensures var trace := After(w, Start(w, io), steps).io.trace;
            && i < |trace| && trace[i].Sent? && trace[i].key == Keys.OFFSET_FOR_LEADER_EPOCH
            && trace[i].out.Copied? && OnlyIdDiffers(steps[2].frame, trace[i].out.frame, trace[i].cid)
  {
    hide Bare, HeaderOf, Sendable, After, Next, Consistent, IsScram, Replies, OnlyIdDiffers;
    AliceIsValid();
    w := Setting(PlainLibrary(), Config([]), map[ALICE := TENANT]);
    io := Io([], Replies(1), [true], [true, true], false);
    var f1, f2 := Bare(Keys.SASL_HANDSHAKE, 0), Bare(Keys.SASL_AUTHENTICATE, 0);
    var f3 := Bare(Keys.OFFSET_FOR_LEADER_EPOCH, 0);
    BareOpens(Keys.SASL_HANDSHAKE, 0);
    BareOpens(Keys.SASL_AUTHENTICATE, 0);
    BareOpens(Keys.OFFSET_FOR_LEADER_EPOCH, 0);
    steps := [ClientSends(f1), ClientSends(f2), ClientSends(f3)];
    ThreeSteps(w, Start(w, io), steps);
    ShakesHands(w, io, f1, PLAIN);
    var y1 := Next(w, Start(w, io), steps[0]);
    LetsIn(w, y1, f2);
    i := GoesRaw(w, Next(w, y1, steps[1]), f3);
  }

  lemma GoesRaw(w: Setting, y: System, frame: Bytes) returns (i: nat)
    requires w.lib == PlainLibrary() && w.cfg == Config([]) && !y.ended
    requires Opens(frame, Keys.OFFSET_FOR_LEADER_EPOCH, 0)
    requires y.conn == FRESH.(phase := Authenticated, mechanism := PLAIN, tenant := TENANT)
    requires y.io == Io(y.io.trace, Replies(1), [true], [], false)
    ensures var trace := Next(w, y, ClientSends(frame)).io.trace;
            && i < |trace| && trace[i].Sent? && trace[i].key == Keys.OFFSET_FOR_LEADER_EPOCH
            && trace[i].out.Copied? && OnlyIdDiffers(frame, trace[i].out.frame, trace[i].cid)
  {
    hide HeaderOf, Reaches, Replies, Under, EnsureUpstream, Passthrough, WithId, OnlyIdDiffers;
    var h := HeaderOf(frame).value;
    var io := Log(y.io, Received(frame));
    ReachesAtFour(w, y, io);
    ReachesThen(w.lib, w.cfg, y.conn, io, 3, 4);
    var dialed := EnsureUpstream(w.lib, w.cfg, y.conn, io);
    i := |dialed.io.trace|;
    PassthroughIs(dialed.io, dialed.state.upstream.value, h.key, frame, h.correlationId);
    WithIdIs(frame, 4);
  }
}
