/** Exactly which frames of a broker's make a dial succeed, and how many of them it takes. */
module Dialing {
  import opened Bytes
  import opened Framing
  import opened Keys
  import opened Auth
  import opened Resolver
  import opened Upstream
  import opened Connection

  function Skip<T>(s: seq<T>, n: nat): seq<T> { if n <= |s| then s[n..] else [] }

  lemma SkipRest<T>(s: seq<T>, n: nat)
    ensures Skip(Rest(s), n) == Skip(s, n + 1) && Skip(s, 0) == s
  {}

  lemma SkipMore<T>(s: seq<T>, n: nat, k: nat)
    ensures Skip(Skip(s, n), k) == Skip(s, n + k)
  {}

  // ------------------------------------------------------------------- Negotiation

  /** The TCP dial succeeds, the first frame answers the ApiVersions request, whatever it
      says, and the second answers the handshake with code 0. */
  predicate Negotiates(lib: Library, io: Io) {
    && io.dials != [] && io.dials[0]
    && Content(io.replies, API_VERSIONS, 0, 1).Some?
    && var shook := Content(Skip(io.replies, 1), SASL_HANDSHAKE, 1, 2);
       shook.Some? && lib.handshakeCode(shook.value) == Some(0)
  }

  lemma NegotiateIff(lib: Library, io: Io, addr: Bytes, mechanism: Bytes)
    ensures var (io', link) := Negotiate(lib, io, addr, mechanism);
            && (link.Some? <==> Negotiates(lib, io))
            && (link.Some? ==> link == Some(Link(addr, 2)) && io'.replies == Skip(io.replies, 2))
  {
    hide Exchange, Content;
    if io.dials != [] && io.dials[0] {
      var io0 := Log(io.(dials := Rest(io.dials)), Dialed(addr));
      ExchangeIs(io0, Link(addr, 0), API_VERSIONS, 0, KROXY, []);
      var (io1, link1, _) := Exchange(io0, Link(addr, 0), API_VERSIONS, 0, KROXY, []);
      ExchangeIs(io1, link1, SASL_HANDSHAKE, 1, KROXY, mechanism);
      SkipRest(io.replies, 0);
      SkipRest(io.replies, 1);
      SkipRest(Rest(io.replies), 0);
    }
  }

  // ---------------------------------------------------------------------- Verdicts

  /** The next frame's verdict on an authentication message sent under id `cid`. */
  function VerdictIn(lib: Library, replies: seq<ReadResult>, cid: int32): Option<AuthReply> {
    match Content(replies, SASL_AUTHENTICATE, 1, cid)
    case None => None
    case Some(content) => lib.authReply(content)
  }

  lemma RelayIs(lib: Library, io: Io, link: Link, payload: Bytes)
    ensures var cid := NextId(link.lastId);
            var (io', link', reply) := Relay(lib, io, link, payload);
            && reply == VerdictIn(lib, io.replies, cid)
            && link' == Link(link.addr, cid) && io'.replies == Rest(io.replies)
  {
    hide Exchange, Content;
    ExchangeIs(io, link, SASL_AUTHENTICATE, 1, KROXY, payload);
  }

  predicate Approves(v: Option<AuthReply>) { v.Some? && v.value.code == 0 }

  /** The next frames approve, one after another, of what is sent under the ids after `k`,
      and say `heard`. */
  predicate ApprovesAll(lib: Library, replies: seq<ReadResult>, k: nat, heard: seq<Bytes>) {
    forall j | 0 <= j < |heard| ::
      var v := VerdictIn(lib, Skip(replies, j), IdAfter(k + j + 1));
      Approves(v) && v.value.payload == heard[j]
  }

  lemma ApprovesAllCons(lib: Library, replies: seq<ReadResult>, k: nat, heard: seq<Bytes>)
    requires heard != []
    ensures ApprovesAll(lib, replies, k, heard) <==>
            var v := VerdictIn(lib, replies, IdAfter(k + 1));
            Approves(v) && v.value.payload == heard[0] && ApprovesAll(lib, Rest(replies), k + 1, heard[1..])
  {
    hide VerdictIn, IdAfter;
    SkipRest(replies, 0);
    forall j: nat | j < |heard| - 1
      ensures VerdictIn(lib, Skip(Rest(replies), j), IdAfter(k + 1 + j + 1))
              == VerdictIn(lib, Skip(replies, j + 1), IdAfter(k + (j + 1) + 1))
    {
      SkipRest(replies, j);
    }
    if ApprovesAll(lib, Rest(replies), k + 1, heard[1..]) {
      forall j | 1 <= j < |heard|
        ensures var v := VerdictIn(lib, Skip(replies, j), IdAfter(k + j + 1));
                Approves(v) && v.value.payload == heard[1..][j - 1]
      {
        assert VerdictIn(lib, Skip(Rest(replies), j - 1), IdAfter(k + 1 + (j - 1) + 1))
               == VerdictIn(lib, Skip(replies, j), IdAfter(k + j + 1));
      }
    }
    if ApprovesAll(lib, replies, k, heard) {
      assert Approves(VerdictIn(lib, Skip(replies, 0), IdAfter(k + 0 + 1)));
      forall j | 0 <= j < |heard| - 1
        ensures var v := VerdictIn(lib, Skip(Rest(replies), j), IdAfter(k + 1 + j + 1));
                Approves(v) && v.value.payload == heard[1..][j]
      {
        assert Approves(VerdictIn(lib, Skip(replies, j + 1), IdAfter(k + (j + 1) + 1)));
      }
    }
  }

  // ----------------------------------------------------------------- SCRAM sessions

  /** A session that has heard `heard` is done once it has heard `more` too, and not before;
      a last message of its own is still approved. */
  predicate Finishes(lib: Library, m: Bytes, user: Bytes, pass: Bytes, heard: seq<Bytes>, more: seq<Bytes>)
    decreases |more|
  {
    more != [] &&
    var heard1 := heard + [more[0]];
    match lib.scramNext(m, user, pass, heard1)
    case None => false
    case Some((done, next)) =>
      if !done then Finishes(lib, m, user, pass, heard1, more[1..])
      else |more| == if next == [] then 1 else 2
  }

  lemma {:induction false} RoundsFinish(
      lib: Library, io: Io, link: Link, m: Bytes, user: Bytes, pass: Bytes, heard: seq<Bytes>, msg: Bytes, k: nat)
      returns (more: seq<Bytes>)
    requires link.lastId == IdAfter(k) && ScramRounds(lib, io, link, m, user, pass, heard, msg).1.Some?
    ensures Finishes(lib, m, user, pass, heard, more) && ApprovesAll(lib, io.replies, k, more)
    decreases |io.replies|
  {
    hide Relay, VerdictIn, ApprovesAll, IdAfter;
    NextIdAfter(k);
    RelayIs(lib, io, link, msg);
    var (io1, link1, reply) := Relay(lib, io, link, msg);
    var heard1 := heard + [reply.value.payload];
    var (done, next) := lib.scramNext(m, user, pass, heard1).value;
    var rest: seq<Bytes> := [];
    if !done {
      rest := RoundsFinish(lib, io1, link1, m, user, pass, heard1, next, k + 1);
    } else {
      ApprovesNone(lib, Rest(io1.replies), k + 2);
      if next != [] {
        NextIdAfter(k + 1);
        RelayIs(lib, io1, link1, next);
        rest := [Relay(lib, io1, link1, next).2.value.payload];
        ApprovesAllCons(lib, io1.replies, k + 1, rest);
        assert rest[1..] == [];
      } else {
        ApprovesNone(lib, io1.replies, k + 1);
      }
    }
    more := [reply.value.payload] + rest;
    assert more[1..] == rest;
    ApprovesAllCons(lib, io.replies, k, more);
  }

  lemma ApprovesNone(lib: Library, replies: seq<ReadResult>, k: nat)
    ensures ApprovesAll(lib, replies, k, [])
  {}

  lemma {:induction false} RoundsFrom(
      lib: Library, io: Io, link: Link, m: Bytes, user: Bytes, pass: Bytes, heard: seq<Bytes>, msg: Bytes, k: nat,
      more: seq<Bytes>)
    requires link.lastId == IdAfter(k)
    requires Finishes(lib, m, user, pass, heard, more) && ApprovesAll(lib, io.replies, k, more)
    ensures var (io', up) := ScramRounds(lib, io, link, m, user, pass, heard, msg);
            up == Some(Link(link.addr, IdAfter(k + |more|))) && io'.replies == Skip(io.replies, |more|)
    decreases |more|
  {
    hide Relay, VerdictIn, ApprovesAll, IdAfter;
    NextIdAfter(k);
    RelayIs(lib, io, link, msg);
    ApprovesAllCons(lib, io.replies, k, more);
    var (io1, link1, reply) := Relay(lib, io, link, msg);
    var heard1 := heard + [reply.value.payload];
    var (done, next) := lib.scramNext(m, user, pass, heard1).value;
    SkipRest(io.replies, 0);
    SkipRest(io.replies, |more| - 1);
    SkipRest(Rest(io.replies), 0);
    if !done {
      RoundsFrom(lib, io1, link1, m, user, pass, heard1, next, k + 1, more[1..]);
    } else if next != [] {
      NextIdAfter(k + 1);
      RelayIs(lib, io1, link1, next);
      ApprovesAllCons(lib, io1.replies, k + 1, more[1..]);
    }
  }

  // ----------------------------------------------------------------------- The dial

  /** The dial for an authenticated client without an upstream succeeds, and takes the
      broker's first n frames: negotiation, and then approval of the client's credentials,
      as they are or in a SCRAM session that they are translated to. */
  ghost predicate Connects(lib: Library, cfg: Config, s: State, io: Io, n: nat) {
    && Negotiates(lib, io)
    && if s.mechanism == PLAIN && IsScram(cfg.upstreamMechanism) then
         && lib.scramFirst(cfg.upstreamMechanism, s.tenant.id, s.password).Some?
         && exists heard ::
              && n == 2 + |heard|
              && Finishes(lib, cfg.upstreamMechanism, s.tenant.id, s.password, [], heard)
              && ApprovesAll(lib, Skip(io.replies, 2), 2, heard)
       else n == 3 && Approves(VerdictIn(lib, Skip(io.replies, 2), 3))
  }

  lemma SmallIds()
    ensures IdAfter(1) == 1 && IdAfter(2) == 2 && IdAfter(3) == 3 && NextId(0) == 1 && NextId(2) == 3
  {}

  lemma DialPlainIff(lib: Library, io: Io, addr: Bytes, username: Bytes, password: Bytes)
    ensures var (io', link) := DialPlain(lib, io, addr, username, password);
            && (link.Some? <==> Negotiates(lib, io) && Approves(VerdictIn(lib, Skip(io.replies, 2), 3)))
            && (link.Some? ==> link == Some(Link(addr, 3)) && io'.replies == Skip(io.replies, 3))
  {
    hide Negotiate, Negotiates, Relay, VerdictIn, UpstreamPlain;
    SmallIds();
    NegotiateIff(lib, io, addr, PLAIN);
    var (io1, link) := Negotiate(lib, io, addr, PLAIN);
    if link.Some? {
      RelayIs(lib, io1, link.value, UpstreamPlain(username, password));
      SkipMore(io.replies, 2, 1);
      SkipRest(Skip(io.replies, 2), 0);
    }
  }

  /** Such a dial gives a connection to the tenant's broker, at the id of its last
      request. */
  lemma ConnectsThen(lib: Library, cfg: Config, s: State, io: Io, n: nat)
    requires s.upstream == None && Connects(lib, cfg, s, io, n)
    ensures var r := EnsureUpstream(lib, cfg, s, io);
            && r.ok && r.state == s.(upstream := Some(Link(s.tenant.upstream, IdAfter(n))))
            && r.io.replies == Skip(io.replies, n)
  {
    hide DialPlain, Negotiates, Negotiate, VerdictIn, ScramRounds, Finishes, ApprovesAll, IsScram;
    SmallIds();
    if s.mechanism == PLAIN && IsScram(cfg.upstreamMechanism) {
      var m := cfg.upstreamMechanism;
      var heard :| n == 2 + |heard| && Finishes(lib, m, s.tenant.id, s.password, [], heard)
                   && ApprovesAll(lib, Skip(io.replies, 2), 2, heard);
      NegotiateIff(lib, io, s.tenant.upstream, m);
      var (io1, link) := Negotiate(lib, io, s.tenant.upstream, m);
      var first := lib.scramFirst(m, s.tenant.id, s.password).value;
      RoundsFrom(lib, io1, link.value, m, s.tenant.id, s.password, [], first, 2, heard);
      SkipMore(io.replies, 2, |heard|);
    } else {
      DialPlainIff(lib, io, s.tenant.upstream, s.tenant.id, s.password);
    }
  }

  /** And no other dial gives one. */
  lemma ConnectsIf(lib: Library, cfg: Config, s: State, io: Io) returns (n: nat)
    requires s.upstream == None && EnsureUpstream(lib, cfg, s, io).ok
    ensures Connects(lib, cfg, s, io, n)
  {
    hide DialPlain, Negotiates, Negotiate, VerdictIn, ScramRounds, Finishes, ApprovesAll, IsScram;
    SmallIds();
    if s.mechanism == PLAIN && IsScram(cfg.upstreamMechanism) {
      var m := cfg.upstreamMechanism;
      NegotiateIff(lib, io, s.tenant.upstream, m);
      var (io1, link) := Negotiate(lib, io, s.tenant.upstream, m);
      var first := lib.scramFirst(m, s.tenant.id, s.password).value;
      var heard := RoundsFinish(lib, io1, link.value, m, s.tenant.id, s.password, [], first, 2);
      n := 2 + |heard|;
    } else {
      DialPlainIff(lib, io, s.tenant.upstream, s.tenant.id, s.password);
      n := 3;
    }
  }

  /** An authenticated client's request gets as far as the broker, which by then has sent n
      frames since the request came, and goes out under id `cid`. */
  ghost predicate Reaches(lib: Library, cfg: Config, s: State, io: Io, n: nat, cid: int32) {
    if s.upstream.Some? then n == 0 && cid == NextId(s.upstream.value.lastId)
    else Connects(lib, cfg, s, io, n) && cid == IdAfter(n + 1)
  }

  /** That is what ensureUpstream sees to. */
  lemma ReachesThen(lib: Library, cfg: Config, s: State, io: Io, n: nat, cid: int32)
    requires Reaches(lib, cfg, s, io, n, cid)
    ensures var r := EnsureUpstream(lib, cfg, s, io);
            && r.ok && r.state.upstream.Some? && NextId(r.state.upstream.value.lastId) == cid
            && r.state == s.(upstream := r.state.upstream)
            && r.io.replies == Skip(io.replies, n) && r.io.writes == io.writes
  {
    hide EnsureUpstream, Connects, IdAfter;
    EnsureWrites(lib, cfg, s, io);
    SkipRest(io.replies, 0);
    if s.upstream == None {
      NextIdAfter(n);
      ConnectsThen(lib, cfg, s, io, n);
    } else {
      EnsureNothing(lib, cfg, s, io);
    }
  }

  lemma EnsureNothing(lib: Library, cfg: Config, s: State, io: Io)
    requires s.upstream.Some?
    ensures EnsureUpstream(lib, cfg, s, io) == Outcome(s, io, true)
  {}

  lemma EnsureWrites(lib: Library, cfg: Config, s: State, io: Io)
    ensures EnsureUpstream(lib, cfg, s, io).io.writes == io.writes
  {
    hide DialPlain, DialScram;
  }

  lemma ReachesIf(lib: Library, cfg: Config, s: State, io: Io) returns (n: nat, cid: int32)
    requires EnsureUpstream(lib, cfg, s, io).ok
    ensures Reaches(lib, cfg, s, io, n, cid)
  {
    hide EnsureUpstream, Connects, IdAfter;
    if s.upstream == None {
      n := ConnectsIf(lib, cfg, s, io);
      cid := IdAfter(n + 1);
    } else {
      n, cid := 0, NextId(s.upstream.value.lastId);
    }
  }
}
