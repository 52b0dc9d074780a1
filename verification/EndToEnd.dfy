/** Many clients, one process, one broker: the run theorems and the isolation theorem
    together. Every connection is a run of `Runs`; the broker carries out what the traces
    show it was sent. */
module EndToEnd {
  import opened Bytes
  import opened Framing
  import opened Keys
  import opened Resolver
  import opened Upstream
  import opened Connection
  import opened Monitor
  import opened Runs
  import opened Traffic
  import opened Dialing
  import opened Service
  import Auth
  import Header
  import Prefix
  import Rewriters
  import C = Cluster
  import I = Isolation

  // ----------------------------------------------------------------- The messages

  /** Requests and responses as bytes, by key and version. */
  datatype Codec = Codec(
    readRequest: (int16, int16, Bytes) -> Option<C.Request>,
    writeRequest: (int16, int16, C.Request) -> Bytes,
    readResponse: (int16, int16, Bytes) -> Option<C.Response>,
    writeResponse: (int16, int16, C.Response) -> Bytes)

  /** The setting of the connections; the broker, at address `addr`; and the messages. */
  datatype Stage = Stage(w: Setting, x: I.Setup, addr: Bytes, codec: Codec)

  /** What the library makes of a request: decode, prefix, encode. */
  function In(g: Stage, key: int16, version: int16, prefix: Bytes, body: Bytes): Option<Bytes> {
    match g.codec.readRequest(key, version, body)
    case None => None
    case Some(r) => Some(g.codec.writeRequest(key, version, C.RequestIn(prefix, r)))
  }

  /** And of a response: decode, strip, encode. */
  function Out(g: Stage, key: int16, version: int16, prefix: Bytes, body: Bytes): Option<Bytes> {
    match g.codec.readResponse(key, version, body)
    case None => None
    case Some(r) => Some(g.codec.writeResponse(key, version, C.ResponseOut(prefix, g.x.host, g.x.port, r)))
  }

  /** The library rewrites so, a prefixed request reads back, and so does the broker's
      response to one. */
  ghost predicate Fits(g: Stage) {
    && (forall key, version, prefix, body | Records(key) ::
          g.w.lib.rewriteIn(key, version, prefix, body) == In(g, key, version, prefix, body))
    && (forall key, version, prefix, body | Records(key) ::
          g.w.lib.rewriteOut(key, version, prefix, body) == Out(g, key, version, prefix, body))
    && (forall key, version, prefix, body | Records(key) && g.codec.readRequest(key, version, body).Some? ::
          var r := C.RequestIn(prefix, g.codec.readRequest(key, version, body).value);
          g.codec.readRequest(key, version, g.codec.writeRequest(key, version, r)) == Some(r))
    && (forall key, version, body, c | Records(key) && g.codec.readRequest(key, version, body).Some? ::
          var response := C.Serve(g.x.broker, c, g.codec.readRequest(key, version, body).value).1;
          g.codec.readResponse(key, version, g.codec.writeResponse(key, version, response)) == Some(response))
  }

  /** A library and messages that do: a body is the one name it holds, and every request
      creates that topic. */
  function OneNameStage(w: Setting, addr: Bytes): Stage {
    Stage(w.(lib := w.lib.(
            rewriteIn := (_, _, prefix: Bytes, body: Bytes) => Some(Prefix.PrefixIn(prefix, body)),
            rewriteOut := (_, _, prefix: Bytes, body: Bytes) => Some(Prefix.StripOut(prefix, body)))),
          I.Setup(I.Agreeable(), [], 0), addr,
          Codec((_, _, body: Bytes) => Some(CreateOne(body)),
                (_, _, r: C.Request) => if r.TopicRequest? && r.entries != [] then r.entries[0].name else [],
                (_, _, body: Bytes) => Some(C.TopicResponse([Rewriters.Entry(body, [])])),
                (_, _, r: C.Response) => if r.TopicResponse? && r.entries != [] then r.entries[0].name else []))
  }

  function CreateOne(name: Bytes): C.Request { C.TopicRequest(C.CreateTopics, [Rewriters.Entry(name, [])]) }

  lemma OneName(prefix: Bytes, name: Bytes, c: C.Cluster)
    ensures C.RequestIn(prefix, CreateOne(name)) == CreateOne(Prefix.PrefixIn(prefix, name))
    ensures C.ResponseOut(prefix, [], 0, C.TopicResponse([Rewriters.Entry(name, [])]))
            == C.TopicResponse([Rewriters.Entry(Prefix.StripOut(prefix, name), [])])
    ensures C.Serve(I.Agreeable(), c, CreateOne(name)).1 == C.TopicResponse([Rewriters.Entry(name, [])])
  {
    var es := [Rewriters.Entry(name, [])];
    assert es[1..] == [];
    assert C.ServeTopics(I.Agreeable(), c.topics, C.CreateTopics, es).1 == [Rewriters.Entry(name, [])] + [];
  }

  lemma OneNameFits(w: Setting, addr: Bytes)
    ensures Fits(OneNameStage(w, addr))
  {
    hide C.RequestIn, C.ResponseOut, C.Serve, Prefix.PrefixIn, Prefix.StripOut, Records, I.Agreeable;
    var g, none := OneNameStage(w, addr), C.Cluster([], []);
    forall key, version, prefix, body
      ensures g.w.lib.rewriteIn(key, version, prefix, body) == In(g, key, version, prefix, body)
      ensures g.w.lib.rewriteOut(key, version, prefix, body) == Out(g, key, version, prefix, body)
      ensures var r := C.RequestIn(prefix, g.codec.readRequest(key, version, body).value);
              g.codec.readRequest(key, version, g.codec.writeRequest(key, version, r)) == Some(r)
    {
      OneName(prefix, body, none);
    }
    forall key, version, body, c
      ensures var response := C.Serve(g.x.broker, c, g.codec.readRequest(key, version, body).value).1;
              g.codec.readResponse(key, version, g.codec.writeResponse(key, version, response)) == Some(response)
    {
      OneName([], body, c);
    }
  }

  // -------------------------------------------------------------------- The world

  /** The connections of the process, and the broker's records. */
  datatype World = World(conns: seq<System>, cluster: C.Cluster)

  /** `served` says whether the broker carries out what the frame is forwarded as. */
  datatype Move = Writes(write: Write) | Speaks(i: nat, frame: Bytes, served: bool) | Leaves(i: nat)

  predicate Ready(v: World) { forall k | 0 <= k < |v.conns| :: Linked(v.conns[k].conn) }

  predicate InRange(n: nat, move: Move) { move.Writes? || move.i < n }

  predicate AllInRange(n: nat, moves: seq<Move>) { forall j | 0 <= j < |moves| :: InRange(n, moves[j]) }

  /** A request to the broker that names its records. */
  predicate IsTraffic(addr: Bytes, e: Event) {
    e.Sent? && e.addr == addr && Records(e.key) && e.out.Typed?
  }

  function ReadSent(g: Stage, e: Event): Option<C.Request>
    requires IsTraffic(g.addr, e)
  {
    g.codec.readRequest(e.key, e.out.version, e.out.body)
  }

  /** What event `e` does to the broker's records. */
  function Absorb(g: Stage, c: C.Cluster, e: Event): C.Cluster {
    if IsTraffic(g.addr, e) && ReadSent(g, e).Some? then C.Serve(g.x.broker, c, ReadSent(g, e).value).0 else c
  }

  function AbsorbAll(g: Stage, c: C.Cluster, news: seq<Event>): C.Cluster
    decreases |news|
  {
    if news == [] then c else AbsorbAll(g, Absorb(g, c, news[0]), news[1..])
  }

  /** What a step adds to a trace. */
  function News(y: System, z: System): seq<Event>
    requires Extends(y.io, z.io)
  {
    z.io.trace[|y.io.trace|..]
  }

  /** The connection a frame was sent on, after it. */
  function Turned(g: Stage, v: World, move: Move): (z: System)
    requires Ready(v) && InRange(|v.conns|, move) && move.Speaks?
    ensures Extends(v.conns[move.i].io, z.io)
  {
    Next(g.w, v.conns[move.i], ClientSends(move.frame))
  }

  /** A catalogue write reaches all connections, and so does a crash. */
  function StepAt(g: Stage, v: World, move: Move, k: nat): Option<Step>
    requires Ready(v) && InRange(|v.conns|, move) && k < |v.conns|
  {
    match move
    case Writes(write) => Some(Admin(write))
    case Leaves(i) => if k == i then Some(ClientGone) else None
    case Speaks(i, frame, _) =>
      if k == i then Some(ClientSends(frame)) else if Turned(g, v, move).io.crashed then Some(OthersCrash) else None
  }

  function Moved(g: Stage, v: World, move: Move): (u: World)
    requires Ready(v) && InRange(|v.conns|, move)
    ensures Ready(u) && |u.conns| == |v.conns|
  {
    World(seq(|v.conns|, k requires 0 <= k < |v.conns| =>
            var step := StepAt(g, v, move, k);
            if step == None then v.conns[k] else Next(g.w, v.conns[k], step.value)),
          if move.Speaks? && move.served then AbsorbAll(g, v.cluster, News(v.conns[move.i], Turned(g, v, move)))
          else v.cluster)
  }

  function Played(g: Stage, v: World, moves: seq<Move>): (u: World)
    requires Ready(v) && AllInRange(|v.conns|, moves)
    ensures Ready(u) && |u.conns| == |v.conns|
    decreases |moves|
  {
    if moves == [] then v else Played(g, Moved(g, v, moves[0]), moves[1..])
  }

  /** The steps connection k takes. */
  function StepsAt(g: Stage, v: World, moves: seq<Move>, k: nat): seq<Step>
    requires Ready(v) && k < |v.conns| && AllInRange(|v.conns|, moves)
    decreases |moves|
  {
    if moves == [] then []
    else
      var step := StepAt(g, v, moves[0], k);
      var rest := StepsAt(g, Moved(g, v, moves[0]), moves[1..], k);
      if step == None then rest else [step.value] + rest
  }

  /** Every connection of the world is a run of its own, so that whatever holds of every
      run holds of it. */
  lemma {:induction false} ConnectionsAreRuns(g: Stage, v: World, moves: seq<Move>, k: nat)
    requires Ready(v) && k < |v.conns| && AllInRange(|v.conns|, moves)
    ensures Played(g, v, moves).conns[k] == After(g.w, v.conns[k], StepsAt(g, v, moves, k))
    decreases |moves|
  {
    hide Next, AbsorbAll;
    if moves != [] {
      var u := Moved(g, v, moves[0]);
      var step := StepAt(g, v, moves[0], k);
      var rest := StepsAt(g, u, moves[1..], k);
      ConnectionsAreRuns(g, u, moves[1..], k);
      if step.Some? {
        AfterCons(g.w, v.conns[k], step.value, rest);
      }
    }
  }

  // ------------------------------------------------------------------- What is seen

  /** An answer a client got, and the header of the request it answers. */
  datatype Told = Told(header: Header.RequestHeader, frame: Bytes)

  function IndexOf(prefixes: seq<Bytes>, p: Bytes): (i: nat)
    requires p in prefixes
    ensures i < |prefixes| && prefixes[i] == p
  {
    if prefixes[0] == p then 0 else 1 + IndexOf(prefixes[1..], p)
  }

  predicate HasTraffic(addr: Bytes, news: seq<Event>) {
    exists j :: 0 <= j < |news| && IsTraffic(addr, news[j])
  }

  /** The last thing in the trace, if it is an answer and the connection is still there. */
  function ToldLast(h: Header.RequestHeader, z: System): Option<Told> {
    if z.ended || z.io.trace == [] || !z.io.trace[|z.io.trace| - 1].Answered? then None
    else Some(Told(h, z.io.trace[|z.io.trace| - 1].frame))
  }

  /** What a move comes to, if the broker carries something out for it: the request as the
      client made it, the tenant of its connection, and what the client was told. */
  function Entry(g: Stage, prefixes: seq<Bytes>, v: World, move: Move): (r: Option<(I.Call, Option<Told>)>)
    requires Ready(v) && InRange(|v.conns|, move)
    ensures r.Some? ==> move.Speaks? && move.served
  {
    if !move.Speaks? || !move.served then None else
      var y, z := v.conns[move.i], Turned(g, v, move);
      var header := HeaderOf(move.frame);
      if !HasTraffic(g.addr, News(y, z)) || header == None || y.conn.tenant.topicPrefix !in prefixes then None else
        var h := header.value;
        match g.codec.readRequest(h.key, h.version, move.frame[h.size..])
        case None => None
        case Some(r) => Some((I.Call(IndexOf(prefixes, y.conn.tenant.topicPrefix), r), ToldLast(h, z)))
  }

  function Calls(g: Stage, prefixes: seq<Bytes>, v: World, moves: seq<Move>): seq<I.Call>
    requires Ready(v) && AllInRange(|v.conns|, moves)
    decreases |moves|
  {
    if moves == [] then []
    else
      var entry := Entry(g, prefixes, v, moves[0]);
      var rest := Calls(g, prefixes, Moved(g, v, moves[0]), moves[1..]);
      if entry == None then rest else [entry.value.0] + rest
  }

  /** What clients were told of those calls, one by one. */
  function Tellings(g: Stage, prefixes: seq<Bytes>, v: World, moves: seq<Move>): seq<Option<Told>>
    requires Ready(v) && AllInRange(|v.conns|, moves)
    decreases |moves|
  {
    if moves == [] then []
    else
      var entry := Entry(g, prefixes, v, moves[0]);
      var rest := Tellings(g, prefixes, Moved(g, v, moves[0]), moves[1..]);
      if entry == None then rest else [entry.value.1] + rest
  }

  /** The frames still to come when event j of the news, a request, was sent: one frame was
      taken for each request before it. */
  function FramesFor(y: System, news: seq<Event>, j: nat): seq<ReadResult>
    requires j <= |news|
  {
    Skip(y.io.replies, Sends(news[..j]))
  }

  /** The broker's frames are its own: one under the id of a request that names records is
      the response of carrying it out, written as Kafka lays a response out. It may also not
      come. */
  ghost predicate Honest(g: Stage, v: World, move: Move)
    requires Ready(v) && InRange(|v.conns|, move)
  {
    move.Speaks? ==>
    var y := v.conns[move.i];
    var news := News(y, Turned(g, v, move));
    forall j | 0 <= j < |news| && IsTraffic(g.addr, news[j]) && Under(FramesFor(y, news, j), news[j].cid).Some? ::
      && move.served
      && var r := ReadSent(g, news[j]);
         r.Some? ==> FramesFor(y, news, j)[0] == Frame(Response(g, v.cluster, news[j], r.value))
  }

  /** What the broker writes in response to request `r`, which it read in `e`. */
  function Response(g: Stage, c: C.Cluster, e: Event, r: C.Request): Bytes
    requires IsTraffic(g.addr, e)
  {
    ResponseHeader(e.key, e.out.version, e.cid)
    + g.codec.writeResponse(e.key, e.out.version, C.Serve(g.x.broker, c, r).1)
  }

  /** The broker's frame comes, and the client can be written to. */
  ghost predicate Delivered(g: Stage, v: World, move: Move)
    requires Ready(v) && InRange(|v.conns|, move) && move.Speaks?
  {
    var y := v.conns[move.i];
    var news := News(y, Turned(g, v, move));
    && Writable(y.io)
    && exists j :: 0 <= j < |news| && IsTraffic(g.addr, news[j]) && Under(FramesFor(y, news, j), news[j].cid).Some?
  }

  /** Of which calls that is so, one by one. */
  ghost function Deliveries(g: Stage, prefixes: seq<Bytes>, v: World, moves: seq<Move>): seq<bool>
    requires Ready(v) && AllInRange(|v.conns|, moves)
    decreases |moves|
  {
    if moves == [] then []
    else
      var rest := Deliveries(g, prefixes, Moved(g, v, moves[0]), moves[1..]);
      if Entry(g, prefixes, v, moves[0]) == None then rest else [Delivered(g, v, moves[0])] + rest
  }

  ghost predicate AllHonest(g: Stage, v: World, moves: seq<Move>)
    requires Ready(v) && AllInRange(|v.conns|, moves)
    decreases |moves|
  {
    moves == [] || (Honest(g, v, moves[0]) && AllHonest(g, Moved(g, v, moves[0]), moves[1..]))
  }

  /** A response as the client of request `h` gets it. */
  function Framed(g: Stage, h: Header.RequestHeader, response: C.Response): Bytes {
    ResponseTo(h) + g.codec.writeResponse(h.key, h.version, response)
  }

  // ------------------------------------------------------------- Whose requests they are

  /** The catalogue's prefixes are listed, and so is that of an admitted client. */
  predicate Known(prefixes: seq<Bytes>, y: System) {
    && (forall id | id in y.tenants :: y.tenants[id].topicPrefix in prefixes)
    && (y.conn.phase == RelayInFlight || y.conn.phase == Authenticated ==> y.conn.tenant.topicPrefix in prefixes)
  }

  predicate AllKnown(prefixes: seq<Bytes>, v: World) {
    forall k | 0 <= k < |v.conns| :: Known(prefixes, v.conns[k])
  }

  /** The prefixes of the tenants that are ever written are listed. */
  predicate WritesKnown(prefixes: seq<Bytes>, moves: seq<Move>) {
    forall j | 0 <= j < |moves| ::
      moves[j].Writes? && moves[j].write.Set? ==> moves[j].write.tenant.topicPrefix in prefixes
  }

  /** From `s` to `t`, a client is admitted as a tenant of the catalogue, or stays the
      tenant it was. */
  ghost predicate Bound(tenants: Catalogue, s: State, t: State) {
    t.phase == RelayInFlight || t.phase == Authenticated ==>
    || (t.tenant == s.tenant && (s.phase == RelayInFlight || s.phase == Authenticated))
    || (exists id :: id in tenants && t.tenant == tenants[id])
  }

  lemma AuthPlainBound(lib: Library, tenants: Catalogue, s: State, io: Io, h: Header.RequestHeader, body: Bytes)
    requires Linked(s)
    ensures Bound(tenants, s, AuthPlain(lib, tenants, s, io, h, body).state)
  {
    hide ResponseFrame, Auth.Plain;
  }

  lemma RelayRoundBound(lib: Library, tenants: Catalogue, s: State, io: Io, h: Header.RequestHeader, payload: Bytes)
    requires s.upstream.Some? && s.phase == RelayInFlight
    ensures RelayRound(lib, s, io, h, payload).state.tenant == s.tenant
  {
    hide ResponseFrame, Relay;
  }

  lemma AuthScramBound(lib: Library, tenants: Catalogue, s: State, io: Io, h: Header.RequestHeader, body: Bytes)
    requires Linked(s)
    ensures Bound(tenants, s, AuthScram(lib, tenants, s, io, h, body).state)
  {
    hide ResponseFrame, Auth.ParseClientFirst, RelayRound, DialRelay;
    var payload := lib.authPayload(h.version, body);
    if payload.Some? && s.phase == RelayInFlight {
      RelayRoundBound(lib, tenants, s, io, h, payload.value);
    } else if payload.Some? && Auth.ParseClientFirst(payload.value).Some? {
      var name := Auth.ParseClientFirst(payload.value).value.name;
      if name in tenants {
        var (io2, link) :=
          DialRelay(lib, Log(io, Looked(name, Some(tenants[name]))), tenants[name].upstream, s.mechanism);
        if link.Some? {
          RelayRoundBound(lib, tenants, s.(tenant := tenants[name], upstream := link, phase := RelayInFlight),
                          io2, h, payload.value);
        }
      }
    }
  }

  lemma ForwardBound(lib: Library, cfg: Config, s: State, io: Io, h: Header.RequestHeader, frame: Bytes, body: Bytes)
    requires Linked(s)
    ensures var t := Connection.Forward(lib, cfg, s, io, h, frame, body).state;
            t.tenant == s.tenant && t.phase == s.phase
  {
    hide EnsureUpstream, Exchange, Passthrough, HasRewriter, ResponseFrame;
    EnsureTenant(lib, cfg, s, io);
  }

  lemma ServeBound(lib: Library, cfg: Config, tenants: Catalogue, s: State, io: Io, frame: Bytes)
    requires Linked(s)
    ensures Bound(tenants, s, Connection.Serve(lib, cfg, tenants, s, io, frame).state)
  {
    hide HeaderOf, AuthPlain, AuthScram, Connection.Forward, ResponseFrame, IsScram, HeaderPanics;
    if HeaderOf(frame).Some? {
      var h := HeaderOf(frame).value;
      var io1, body := Log(io, Received(frame)), frame[h.size..];
      AuthPlainBound(lib, tenants, s, io1, h, body);
      AuthScramBound(lib, tenants, s, io1, h, body);
      ForwardBound(lib, cfg, s, io1, h, frame, body);
    }
  }

  lemma NextKnown(w: Setting, prefixes: seq<Bytes>, y: System, step: Step)
    requires Linked(y.conn) && Known(prefixes, y)
    requires step.Admin? && step.write.Set? ==> step.write.tenant.topicPrefix in prefixes
    ensures Known(prefixes, Next(w, y, step))
  {
    hide Connection.Serve;
    if step.ClientSends? {
      ServeBound(w.lib, w.cfg, y.tenants, y.conn, y.io, step.frame);
    }
  }

  lemma MovedKnown(g: Stage, prefixes: seq<Bytes>, v: World, move: Move)
    requires Ready(v) && InRange(|v.conns|, move) && AllKnown(prefixes, v) && WritesKnown(prefixes, [move])
    ensures AllKnown(prefixes, Moved(g, v, move))
  {
    hide Known, Next, AbsorbAll;
    assert [move][0] == move;
    forall k | 0 <= k < |v.conns| ensures Known(prefixes, Moved(g, v, move).conns[k]) {
      var step := StepAt(g, v, move, k);
      if step.Some? {
        NextKnown(g.w, prefixes, v.conns[k], step.value);
      }
    }
  }

  // --------------------------------------------------------------------- One move

  /** Nothing among the news concerns the broker's records. */
  lemma {:induction false} AbsorbNothing(g: Stage, c: C.Cluster, news: seq<Event>)
    requires !HasTraffic(g.addr, news)
    ensures AbsorbAll(g, c, news) == c
    decreases |news|
  {
    hide IsTraffic;
    if news != [] {
      assert !IsTraffic(g.addr, news[0]);
      assert forall j | 0 <= j < |news| - 1 :: news[1..][j] == news[j + 1];
      AbsorbNothing(g, c, news[1..]);
    }
  }

  /** Or one thing does. */
  lemma {:induction false} AbsorbOne(g: Stage, c: C.Cluster, news: seq<Event>, k: nat)
    requires k < |news| && forall j | 0 <= j < |news| && j != k :: !IsTraffic(g.addr, news[j])
    ensures AbsorbAll(g, c, news) == Absorb(g, c, news[k])
    decreases |news|
  {
    hide IsTraffic, ReadSent;
    assert forall j | 0 <= j < |news| - 1 :: news[1..][j] == news[j + 1];
    if k == 0 {
      AbsorbNothing(g, Absorb(g, c, news[0]), news[1..]);
    } else {
      AbsorbOne(g, c, news[1..], k - 1);
    }
  }

  /** A frame sent on connection y: the news hold nothing for the broker, or just this
      request. */
  lemma TurnShips(g: Stage, v: World, move: Move) returns (k: nat)
    requires Ready(v) && InRange(|v.conns|, move) && move.Speaks?
    ensures var y, z := v.conns[move.i], Turned(g, v, move);
            || !HasTraffic(g.addr, News(y, z))
            || (&& y.conn.phase == Authenticated && k < |z.io.trace| && IsTraffic(g.addr, z.io.trace[k])
                && Ships(g.w.lib, y.conn.tenant.topicPrefix, move.frame, y.io, z.io, !z.ended, k))
  {
    hide Connection.Serve, Ships, HeaderOf, Records, Reaches, Silent;
    var y, z := v.conns[move.i], Turned(g, v, move);
    k := 0;
    if !y.io.crashed && !y.ended && Sendable(move.frame) {
      k := ServeShips(g.w.lib, g.w.cfg, y.tenants, y.conn, y.io, move.frame);
      if !MayShip(g.w.lib, g.w.cfg, y.conn, y.io, move.frame) {
        SilentNews(g, y, z);
      } else if !(k < |z.io.trace| && IsTraffic(g.addr, z.io.trace[k])) {
        ShipsElsewhere(g, y, z, move.frame, k);
      }
    }
  }

  lemma SilentNews(g: Stage, y: System, z: System)
    requires Extends(y.io, z.io) && Silent(y.io, z.io)
    ensures !HasTraffic(g.addr, News(y, z))
  {
    hide Records;
  }

  lemma ShipsElsewhere(g: Stage, y: System, z: System, frame: Bytes, k: nat)
    requires Extends(y.io, z.io)
    requires Ships(g.w.lib, y.conn.tenant.topicPrefix, frame, y.io, z.io, !z.ended, k)
    requires !(k < |z.io.trace| && IsTraffic(g.addr, z.io.trace[k]))
    ensures !HasTraffic(g.addr, News(y, z))
  {
    hide HeaderOf, Records, ResponseTo, Content;
  }

  /** The one event of the news that concerns the broker, and the frames for it. */
  lemma ShippedAlone(g: Stage, y: System, z: System, frame: Bytes, c: C.Cluster, k: nat)
    requires Extends(y.io, z.io)
    requires Ships(g.w.lib, y.conn.tenant.topicPrefix, frame, y.io, z.io, !z.ended, k)
    requires IsTraffic(g.addr, z.io.trace[k])
    ensures AbsorbAll(g, c, News(y, z)) == Absorb(g, c, z.io.trace[k]) && HasTraffic(g.addr, News(y, z))
    ensures var j := k - |y.io.trace|;
            && 0 <= j < |News(y, z)| && News(y, z)[j] == z.io.trace[k]
            && (forall i | 0 <= i < |News(y, z)| && IsTraffic(g.addr, News(y, z)[i]) :: i == j)
            && FramesFor(y, News(y, z), j) == Skip(y.io.replies, Sends(z.io.trace[|y.io.trace|..k]))
  {
    hide HeaderOf, Records, ResponseTo, Content, Absorb, AbsorbAll;
    var n := |y.io.trace|;
    assert News(y, z)[k - n] == z.io.trace[k];
    assert News(y, z)[..k - n] == z.io.trace[n..k];
    AbsorbOne(g, c, News(y, z), k - n);
  }

  /** What the broker reads of a shipped request is the client's, prefixed. */
  lemma ShippedReads(g: Stage, y: System, frame: Bytes, io': Io, ok: bool, k: nat)
    requires Fits(g) && Ships(g.w.lib, y.conn.tenant.topicPrefix, frame, y.io, io', ok, k)
    requires IsTraffic(g.addr, io'.trace[k])
    ensures HeaderOf(frame).Some?
    ensures var h := HeaderOf(frame).value;
            var r := g.codec.readRequest(h.key, h.version, frame[h.size..]);
            r.Some? && ReadSent(g, io'.trace[k]) == Some(C.RequestIn(y.conn.tenant.topicPrefix, r.value))
  {
    hide HeaderOf, Records, ResponseTo, Content, C.RequestIn;
    var h := HeaderOf(frame).value;
    var p, body := y.conn.tenant.topicPrefix, frame[h.size..];
    assert g.w.lib.rewriteIn(h.key, h.version, p, body) == In(g, h.key, h.version, p, body);
  }

  /** The client is told something exactly if the broker's frame comes and the client can be
      written to; and then it is the broker's response, stripped. */
  lemma AnswerStripped(g: Stage, y: System, z: System, frame: Bytes, c: C.Cluster, k: nat)
    requires Fits(g) && Ships(g.w.lib, y.conn.tenant.topicPrefix, frame, y.io, z.io, !z.ended, k)
    requires IsTraffic(g.addr, z.io.trace[k]) && ReadSent(g, z.io.trace[k]).Some?
    requires var e := z.io.trace[k];
             var frames := Skip(y.io.replies, Sends(z.io.trace[|y.io.trace|..k]));
             Under(frames, e.cid).Some? ==> frames[0] == Frame(Response(g, c, e, ReadSent(g, e).value))
    ensures var h := HeaderOf(frame).value;
            var e := z.io.trace[k];
            var frames := Skip(y.io.replies, Sends(z.io.trace[|y.io.trace|..k]));
            var response := C.Serve(g.x.broker, c, ReadSent(g, e).value).1;
            ToldLast(h, z)
            == if Under(frames, e.cid).Some? && Writable(y.io)
               then Some(Told(h, Framed(g, h, C.ResponseOut(y.conn.tenant.topicPrefix, g.x.host, g.x.port, response))))
               else None
  {
    hide HeaderOf, Records, ResponseTo, ResponseHeader, C.ResponseOut, C.Serve, Under, Sends, Skip;
    var h, p := HeaderOf(frame).value, y.conn.tenant.topicPrefix;
    var e := z.io.trace[k];
    var frames := Skip(y.io.replies, Sends(z.io.trace[|y.io.trace|..k]));
    var response := C.Serve(g.x.broker, c, ReadSent(g, e).value).1;
    var body := g.codec.writeResponse(h.key, h.version, response);
    assert g.codec.readResponse(h.key, h.version, body) == Some(response);
    assert g.w.lib.rewriteOut(h.key, h.version, p, body) == Out(g, h.key, h.version, p, body);
    if Under(frames, e.cid).Some? {
      ContentOfResponse(frames, h.key, h.version, e.cid, body);
    } else {
      NoContent(frames, h.key, h.version, e.cid);
    }
  }

  lemma NoContent(frames: seq<ReadResult>, key: int16, version: int16, cid: int32)
    requires Under(frames, cid) == None
    ensures Content(frames, key, version, cid) == None
  {}

  /** One move does to the broker what its entry says, if it has one, and nothing if not;
      and tells the client what the entry says, exactly if that is delivered. */
  lemma OneMove(g: Stage, prefixes: seq<Bytes>, v: World, move: Move)
    requires Fits(g) && Ready(v) && InRange(|v.conns|, move) && Honest(g, v, move) && AllKnown(prefixes, v)
    ensures var entry := Entry(g, prefixes, v, move);
            var u := Moved(g, v, move).cluster;
            && (entry == None ==> u == v.cluster)
            && (entry.Some? ==>
                var (call, told) := entry.value;
                && call.tenant < |prefixes|
                && var p := prefixes[call.tenant];
                   var (c, response) := C.Serve(g.x.broker, v.cluster, C.RequestIn(p, call.request));
                   && u == c
                   && (told.Some? <==> Delivered(g, v, move))
                   && (told.Some? ==>
                       told.value.frame
                       == Framed(g, told.value.header, C.ResponseOut(p, g.x.host, g.x.port, response))))
    ensures move.Speaks? && HasTraffic(g.addr, News(v.conns[move.i], Turned(g, v, move))) ==>
            && (Entry(g, prefixes, v, move).Some? <==> move.served)
            && (!Turned(g, v, move).ended ==> move.served)
  {
    hide Fits, Ships, HeaderOf, Records, AbsorbAll, C.Serve, C.RequestIn, C.ResponseOut, Framed, Next, HasTraffic,
         ReadSent, Under, FramesFor, Response;
    if move.Speaks? {
      var y, z := v.conns[move.i], Turned(g, v, move);
      var k := TurnShips(g, v, move);
      if HasTraffic(g.addr, News(y, z)) {
        ShippedAlone(g, y, z, move.frame, v.cluster, k);
        ShippedReads(g, y, move.frame, z.io, !z.ended, k);
        var j := k - |y.io.trace|;
        assert Under(FramesFor(y, News(y, z), j), News(y, z)[j].cid).Some? ==> move.served;
        ShippedAnswered(g, y, z, move.frame, k);
        if move.served {
          AnswerStripped(g, y, z, move.frame, v.cluster, k);
        }
      } else {
        AbsorbNothing(g, v.cluster, News(y, z));
      }
    }
  }

  lemma ShippedAnswered(g: Stage, y: System, z: System, frame: Bytes, k: nat)
    requires Ships(g.w.lib, y.conn.tenant.topicPrefix, frame, y.io, z.io, !z.ended, k)
    ensures !z.ended ==> Under(Skip(y.io.replies, Sends(z.io.trace[|y.io.trace|..k])), z.io.trace[k].cid).Some?
  {
    hide HeaderOf, Records, ResponseTo, Under, Sends, Skip;
  }

  /** Which requests are calls: those the broker carries out of the ones that reach it. A
      request reaches it exactly if its client is authenticated, it names records and can be
      read, and there is a connection to the broker or the dial for one succeeds. */
  lemma CallIff(g: Stage, prefixes: seq<Bytes>, v: World, move: Move)
    requires Fits(g) && Ready(v) && InRange(|v.conns|, move) && Honest(g, v, move) && AllKnown(prefixes, v)
    requires move.Speaks? && Open(v.conns[move.i], move.frame)
    requires var up := Turned(g, v, move).conn.upstream; up.Some? ==> up.value.addr == g.addr
    ensures var y := v.conns[move.i];
            var h := HeaderOf(move.frame).value;
            Entry(g, prefixes, v, move).Some?
            <==> && move.served && y.conn.phase == Authenticated && Records(h.key)
                 && g.codec.readRequest(h.key, h.version, move.frame[h.size..]).Some?
                 && exists n, cid :: Reaches(g.w.lib, g.w.cfg, y.conn, y.io, n, cid)
  {
    hide HeaderOf, Records, AbsorbAll, Connection.Serve, Reaches, C.RequestIn, C.ResponseOut, Silent, Ships, C.Serve,
         Honest, AllKnown, Framed;
    var y, z := v.conns[move.i], Turned(g, v, move);
    var h := HeaderOf(move.frame).value;
    var p := y.conn.tenant.topicPrefix;
    OneMove(g, prefixes, v, move);
    assert Records(h.key) ==>
           g.w.lib.rewriteIn(h.key, h.version, p, move.frame[h.size..])
           == In(g, h.key, h.version, p, move.frame[h.size..]);
    var k := ServeShips(g.w.lib, g.w.cfg, y.tenants, y.conn, y.io, move.frame);
    if MayShip(g.w.lib, g.w.cfg, y.conn, y.io, move.frame) {
      ShipsHere(g, y, z, move.frame, k);
    } else {
      SilentNews(g, y, z);
    }
  }

  lemma ShipsHere(g: Stage, y: System, z: System, frame: Bytes, k: nat)
    requires Extends(y.io, z.io)
    requires Ships(g.w.lib, y.conn.tenant.topicPrefix, frame, y.io, z.io, !z.ended, k)
    requires z.io.trace[k].addr == g.addr
    ensures HasTraffic(g.addr, News(y, z))
  {
    hide HeaderOf, Records, ResponseTo, Content;
    assert News(y, z)[k - |y.io.trace|] == z.io.trace[k];
  }

  /** A connection to this broker is told nothing of a request that names records, unless
      the request is a call. */
  lemma AnswersAreCalls(g: Stage, prefixes: seq<Bytes>, v: World, move: Move)
    requires Fits(g) && Ready(v) && InRange(|v.conns|, move) && Honest(g, v, move) && AllKnown(prefixes, v)
    requires move.Speaks? && !v.conns[move.i].io.crashed && !Turned(g, v, move).ended
    requires HeaderOf(move.frame).Some? && Records(HeaderOf(move.frame).value.key)
    requires var up := Turned(g, v, move).conn.upstream; up.Some? && up.value.addr == g.addr
    ensures Entry(g, prefixes, v, move).Some? && Entry(g, prefixes, v, move).value.1.Some?
  {
    hide Fits, HeaderOf, Records, AbsorbAll, Connection.Serve, Reaches, Silent, Ships, C.Serve, C.RequestIn,
         C.ResponseOut, Honest, AllKnown, Framed, Delivered;
    var y, z := v.conns[move.i], Turned(g, v, move);
    OneMove(g, prefixes, v, move);
    var k := ServeShips(g.w.lib, g.w.cfg, y.tenants, y.conn, y.io, move.frame);
    ShipsHere(g, y, z, move.frame, k);
    AnsweredLast(g, y, z, move.frame, k);
  }

  lemma AnsweredLast(g: Stage, y: System, z: System, frame: Bytes, k: nat)
    requires Ships(g.w.lib, y.conn.tenant.topicPrefix, frame, y.io, z.io, true, k) && !z.ended
    ensures forall h :: ToldLast(h, z).Some?
  {
    hide HeaderOf, Records, ResponseTo, Content;
  }

  // ------------------------------------------------------------------- Whole plays

  /** Clients are told of just the responses that are delivered, and told just those. */
  ghost predicate Match(g: Stage, told: seq<Option<Told>>, delivered: seq<bool>, responses: seq<C.Response>) {
    && |told| == |delivered| == |responses|
    && (forall k | 0 <= k < |told| :: told[k].Some? <==> delivered[k])
    && forall k | 0 <= k < |told| && told[k].Some? ::
         told[k].value.frame == Framed(g, told[k].value.header, responses[k])
  }

  lemma MatchCons(g: Stage, t: Option<Told>, told: seq<Option<Told>>, d: bool, delivered: seq<bool>,
                  r: C.Response, responses: seq<C.Response>)
    requires Match(g, told, delivered, responses) && (t.Some? <==> d)
    requires t.Some? ==> t.value.frame == Framed(g, t.value.header, r)
    ensures Match(g, [t] + told, [d] + delivered, [r] + responses)
  {
    hide Framed;
  }

  /** However many connections, their calls are one run of the shared cluster. */
  lemma {:induction false} CallsAreARun(g: Stage, prefixes: seq<Bytes>, v: World, moves: seq<Move>)
    requires Fits(g) && Ready(v) && AllInRange(|v.conns|, moves) && AllHonest(g, v, moves)
    requires AllKnown(prefixes, v) && WritesKnown(prefixes, moves)
    ensures var calls := Calls(g, prefixes, v, moves);
            && I.ByTenants(prefixes, calls)
            && var (c, responses) := I.RunShared(g.x, prefixes, v.cluster, calls);
               && c == Played(g, v, moves).cluster
               && Match(g, Tellings(g, prefixes, v, moves), Deliveries(g, prefixes, v, moves), responses)
    decreases |moves|
  {
    hide Fits, Moved, Entry, AllKnown, Framed, Match, C.Serve, C.RequestIn, C.ResponseOut, Honest, Delivered;
    if moves == [] {
      MatchNone(g);
    } else {
      var move, rest := moves[0], moves[1..];
      OneMove(g, prefixes, v, move);
      FirstWriteKnown(prefixes, moves);
      MovedKnown(g, prefixes, v, move);
      var u := Moved(g, v, move);
      CallsAreARun(g, prefixes, u, rest);
      var entry := Entry(g, prefixes, v, move);
      if entry.Some? {
        var (call, told) := entry.value;
        var p := prefixes[call.tenant];
        var (c, response) := C.Serve(g.x.broker, v.cluster, C.RequestIn(p, call.request));
        var calls := Calls(g, prefixes, u, rest);
        assert ([call] + calls)[1..] == calls;
        MatchCons(g, told, Tellings(g, prefixes, u, rest),
                  Delivered(g, v, move), Deliveries(g, prefixes, u, rest),
                  C.ResponseOut(p, g.x.host, g.x.port, response), I.RunShared(g.x, prefixes, c, calls).1);
      }
    }
  }

  lemma MatchNone(g: Stage)
    ensures Match(g, [], [], [])
  {}

  lemma FirstWriteKnown(prefixes: seq<Bytes>, moves: seq<Move>)
    requires moves != [] && WritesKnown(prefixes, moves)
    ensures WritesKnown(prefixes, [moves[0]]) && WritesKnown(prefixes, moves[1..])
  {}

  /** What matches call by call matches among one tenant's calls. */
  lemma {:induction false} MatchTo(
      g: Stage, t: nat, calls: seq<I.Call>, told: seq<Option<Told>>, delivered: seq<bool>, responses: seq<C.Response>)
    requires Match(g, told, delivered, responses) && |calls| == |told|
    ensures Match(g, I.ResponsesTo(t, calls, told), I.ResponsesTo(t, calls, delivered),
                  I.ResponsesTo(t, calls, responses))
    decreases |calls|
  {
    hide Framed;
    if calls != [] {
      MatchTo(g, t, calls[1..], told[1..], delivered[1..], responses[1..]);
    }
  }

  /** A process with any number of fresh connections. */
  function Opening(w: Setting, ios: seq<Io>, cluster: C.Cluster): (v: World)
    ensures Ready(v)
  {
    World(seq(|ios|, k requires 0 <= k < |ios| => Start(w, ios[k])), cluster)
  }

  lemma OpeningKnown(w: Setting, prefixes: seq<Bytes>, ios: seq<Io>, cluster: C.Cluster)
    requires forall id | id in w.start :: w.start[id].topicPrefix in prefixes
    ensures AllKnown(prefixes, Opening(w, ios, cluster))
  {}

  /** The promise, end to end. Any number of clients connect, authenticate, send any frames
      and leave, in any order, while the catalogue is written; the broker carries out what
      it is sent, and its frames, where they come, are its own. Then the clients of tenant t
      are told of just those of their requests that name records for which the broker's frame
      came and the client could be written to; and everything they are told, on all their
      connections, is what a cluster of t's own, fed these requests and no others, would
      have told them; and such a cluster is what t leaves behind. This needs t's prefix to be apart from
      every other of the catalogue, and t's requests to be well named. */
  lemma TenantsSeeDedicatedClusters(
      g: Stage, prefixes: seq<Bytes>, t: nat, ios: seq<Io>, cluster: C.Cluster, moves: seq<Move>)
    requires Fits(g) && t < |prefixes| && I.Apart(prefixes, t)
    requires forall id | id in g.w.start :: g.w.start[id].topicPrefix in prefixes
    requires AllInRange(|ios|, moves) && WritesKnown(prefixes, moves)
    requires AllHonest(g, Opening(g.w, ios, cluster), moves)
    requires I.OwnWellNamed(t, Calls(g, prefixes, Opening(g.w, ios, cluster), moves))
    requires C.OwnOffsets(prefixes[t], cluster.groups)
    ensures var v := Opening(g.w, ios, cluster);
            var calls := Calls(g, prefixes, v, moves);
            var told := I.ResponsesTo(t, calls, Tellings(g, prefixes, v, moves));
            var (d, answers) := I.RunPrivate(g.x, C.Dedicated(prefixes[t], cluster), I.RequestsOf(t, calls));
            var delivered := I.ResponsesTo(t, calls, Deliveries(g, prefixes, v, moves));
            && |told| == |delivered| == |answers| == |I.RequestsOf(t, calls)|
            && (forall k | 0 <= k < |told| :: told[k].Some? <==> delivered[k])
            && (forall k | 0 <= k < |told| && told[k].Some? ::
                  told[k].value.frame == Framed(g, told[k].value.header, answers[k]))
            && d == C.Dedicated(prefixes[t], Played(g, v, moves).cluster)
  {
    hide Fits, Calls, Tellings, Deliveries, Played, AllHonest, Framed, C.Dedicated, C.OwnOffsets;
    var v := Opening(g.w, ios, cluster);
    OpeningKnown(g.w, prefixes, ios, cluster);
    CallsAreARun(g, prefixes, v, moves);
    var calls := Calls(g, prefixes, v, moves);
    var responses := I.RunShared(g.x, prefixes, cluster, calls).1;
    OneResponseEach(g.x, prefixes, cluster, calls);
    MatchTo(g, t, calls, Tellings(g, prefixes, v, moves), Deliveries(g, prefixes, v, moves), responses);
    I.DedicatedClusterRefinement(g.x, prefixes, t, cluster, calls);
    OneAnswerEach(g.x, C.Dedicated(prefixes[t], cluster), I.RequestsOf(t, calls));
  }

  lemma {:induction false} OneResponseEach(x: I.Setup, prefixes: seq<Bytes>, c: C.Cluster, calls: seq<I.Call>)
    requires I.ByTenants(prefixes, calls)
    ensures |I.RunShared(x, prefixes, c, calls).1| == |calls|
    decreases |calls|
  {
    hide C.Serve, C.RequestIn, C.ResponseOut;
    if calls != [] {
      var c' := C.Serve(x.broker, c, C.RequestIn(prefixes[calls[0].tenant], calls[0].request)).0;
      OneResponseEach(x, prefixes, c', calls[1..]);
    }
  }

  lemma {:induction false} OneAnswerEach(x: I.Setup, d: C.Cluster, rs: seq<C.Request>)
    ensures |I.RunPrivate(x, d, rs).1| == |rs|
    decreases |rs|
  {
    hide C.Serve, C.Collapse;
    if rs != [] {
      OneAnswerEach(x, C.Serve(x.broker, d, rs[0]).0, rs[1..]);
    }
  }
}
