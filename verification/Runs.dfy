/** Whole runs: client requests, catalogue writes and broken connections in any order,
    against any broker. */
module Runs {
  import opened Bytes
  import opened Framing
  import opened Auth
  import Header
  import Keys
  import opened Resolver
  import opened Upstream
  import opened Connection
  import opened Dialing
  import opened Monitor
  import opened Invariant

  /** `OthersCrash`: another connection has taken the process down. */
  datatype Step = Admin(write: Write) | ClientSends(frame: Bytes) | ClientGone | OthersCrash

  /** One connection, the catalogue it looks tenants up in, and the world. */
  datatype System = System(tenants: Catalogue, conn: State, io: Io, ended: bool)

  /** Nothing happens in a process that has crashed. A frame that cannot be read ends the
      connection. */
  function Next(w: Setting, y: System, step: Step): (z: System)
    requires Linked(y.conn)
    ensures Linked(z.conn) && Extends(y.io, z.io)
  {
    if y.io.crashed then y else
      match step
      case Admin(write) => y.(tenants := Apply(y.tenants, write), io := Log(y.io, Wrote(write)))
      case ClientGone => y.(ended := true)
      case OthersCrash => y.(ended := true, io := y.io.(crashed := true))
      case ClientSends(frame) =>
        if y.ended then y
        else if !Sendable(frame) then y.(ended := true)
        else
          var r := Serve(w.lib, w.cfg, y.tenants, y.conn, y.io, frame);
          y.(conn := r.state, io := r.io, ended := !r.ok)
  }

  function After(w: Setting, y: System, steps: seq<Step>): (z: System)
    requires Linked(y.conn)
    ensures Linked(z.conn)
  {
    if steps == [] then y else Next(w, After(w, y, steps[..|steps| - 1]), steps[|steps| - 1])
  }

  /** A fresh connection; everything that will come from outside is arbitrary. */
  function Start(w: Setting, io: Io): System {
    System(w.start, FRESH, io.(trace := [], crashed := false), false)
  }

  // ----------------------------------------------------------------------- Crashes

  /** A rewritten request whose reply carries the right id and ends before its header. */
  ghost predicate ReplyFallsShort(
      lib: Library, cfg: Config, s: State, io: Io, h: Header.RequestHeader, body: Bytes)
  {
    && s.phase == Authenticated && Keys.NamesThings(h.key)
    && lib.rewriteIn(h.key, h.version, s.tenant.topicPrefix, body).Some?
    && exists n, cid ::
         && Reaches(lib, cfg, s, io, n, cid)
         && Under(Skip(io.replies, n), cid).Some? && Content(Skip(io.replies, n), h.key, h.version, cid) == None
  }

  ghost predicate Crashes(lib: Library, cfg: Config, s: State, io: Io, frame: Bytes) {
    || Header.FrameGoesNegative(frame)
    || (&& HeaderOf(frame).Some?
        && var h := HeaderOf(frame).value;
           ReplyFallsShort(lib, cfg, s, Log(io, Received(frame)), h, frame[h.size..]))
  }

  lemma EnsureTenant(lib: Library, cfg: Config, s: State, io: Io)
    ensures var r := EnsureUpstream(lib, cfg, s, io);
            && r.state == s.(upstream := r.state.upstream) && (r.ok <==> r.state.upstream.Some?)
            && r.io.crashed == io.crashed
  {
    hide DialPlain, DialScram;
  }

  lemma RewrittenCrashesIff(lib: Library, s: State, io: Io, h: Header.RequestHeader, body: Bytes)
    requires s.upstream.Some? && !io.crashed
    ensures var r := Rewritten(lib, s, io, h, body);
            && (r.io.crashed <==>
                && lib.rewriteIn(h.key, h.version, s.tenant.topicPrefix, body).Some?
                && var cid := NextId(s.upstream.value.lastId);
                   Under(io.replies, cid).Some? && Content(io.replies, h.key, h.version, cid) == None)
            && (r.io.crashed ==> !r.ok)
  {
    hide Answers, Keys.ResponseHeaderVersion, ResponseFrame, NextId, PutInt32;
    AnswersIff(io.replies, NextId(s.upstream.value.lastId));
    HeaderLength(h.key, h.version, NextId(s.upstream.value.lastId));
  }

  lemma ForwardCrashesIff(
      lib: Library, cfg: Config, s: State, io: Io, h: Header.RequestHeader, frame: Bytes, body: Bytes)
    requires Linked(s) && !io.crashed && !OpensConnection(h.key)
    ensures var r := Connection.Forward(lib, cfg, s, io, h, frame, body);
            && (r.io.crashed <==> ReplyFallsShort(lib, cfg, s, io, h, body))
            && (r.io.crashed ==> !r.ok)
  {
    hide EnsureUpstream, Rewritten, Passthrough, Keys.HasRewriter, Keys.NamesThings, Reaches, Under, Content, Skip;
    EnsureTenant(lib, cfg, s, io);
    Keys.RewriterIff(h.key);
    var dialed := EnsureUpstream(lib, cfg, s, io);
    if s.phase == Authenticated && dialed.ok {
      var n, cid := ReachesIf(lib, cfg, s, io);
      ReachesThen(lib, cfg, s, io, n, cid);
      RewrittenCrashesIff(lib, dialed.state, dialed.io, h, body);
    }
    forall n, cid | Reaches(lib, cfg, s, io, n, cid)
      ensures dialed.ok && Skip(io.replies, n) == dialed.io.replies
      ensures dialed.state.upstream.Some? && NextId(dialed.state.upstream.value.lastId) == cid
    {
      ReachesThen(lib, cfg, s, io, n, cid);
    }
  }

  lemma HandshakeNeverCrashes(lib: Library, s: State, io: Io, h: Header.RequestHeader, body: Bytes)
    requires Linked(s)
    ensures Handshake(lib, s, io, h, body).io.crashed == io.crashed
  {
    hide ResponseFrame, IsScram;
  }

  lemma PlainNeverCrashes(lib: Library, tenants: Catalogue, s: State, io: Io, h: Header.RequestHeader, body: Bytes)
    requires Linked(s)
    ensures AuthPlain(lib, tenants, s, io, h, body).io.crashed == io.crashed
  {
    hide Plain, ResponseFrame, Find;
  }

  lemma RelayNeverCrashes(lib: Library, s: State, io: Io, h: Header.RequestHeader, payload: Bytes)
    requires s.upstream.Some?
    ensures RelayRound(lib, s, io, h, payload).io.crashed == io.crashed
  {
    hide Relay, ResponseFrame;
  }

  lemma ScramNeverCrashes(lib: Library, tenants: Catalogue, s: State, io: Io, h: Header.RequestHeader, body: Bytes)
    requires Linked(s)
    ensures AuthScram(lib, tenants, s, io, h, body).io.crashed == io.crashed
  {
    hide ParseClientFirst, RelayRound, DialRelay, ResponseFrame, Find;
    var payload := lib.authPayload(h.version, body);
    if payload.Some? {
      if s.phase == RelayInFlight {
        RelayNeverCrashes(lib, s, io, h, payload.value);
      } else if ParseClientFirst(payload.value).Some? {
        var name := ParseClientFirst(payload.value).value.name;
        var found := Find(tenants, name);
        if found.Some? {
          var (io2, link) := DialRelay(lib, Log(io, Looked(name, found)), found.value.upstream, s.mechanism);
          if link.Some? {
            RelayNeverCrashes(lib, s.(tenant := found.value, upstream := link, phase := RelayInFlight),
                              io2, h, payload.value);
          }
        }
      }
    }
  }

  /** What crashes the process: other connections, and in this one exactly a frame in which
      the way over the tagged fields goes negative, and a rewritten request whose reply ends
      before its own header. */
  lemma CrashesIff(w: Setting, y: System, step: Step)
    requires Linked(y.conn) && !y.io.crashed
    ensures Next(w, y, step).io.crashed
            <==> || step.OthersCrash?
                 || (&& step.ClientSends? && !y.ended && Sendable(step.frame)
                     && Crashes(w.lib, w.cfg, y.conn, y.io, step.frame))
    ensures Next(w, y, step).io.crashed ==> Next(w, y, step).ended
  {
    hide Handshake, AuthPlain, AuthScram, Connection.Forward, ReplyFallsShort, HeaderPanics, ResponseFrame;
    hide Header.ParseInt64;
    hide Header.FrameGoesNegative;
    if step.ClientSends? && !y.ended && Sendable(step.frame) {
      HeaderPanicsIff(step.frame);
      HeaderOfIff(step.frame);
      if HeaderOf(step.frame).Some? {
        var h := HeaderOf(step.frame).value;
        var io := Log(y.io, Received(step.frame));
        var body := step.frame[h.size..];
        if OpensConnection(h.key) {
          HandshakeNeverCrashes(w.lib, y.conn, io, h, body);
          PlainNeverCrashes(w.lib, y.tenants, y.conn, io, h, body);
          ScramNeverCrashes(w.lib, y.tenants, y.conn, io, h, body);
          assert !ReplyFallsShort(w.lib, w.cfg, y.conn, io, h, body) by { OpenersReplyInFull(w, y.conn, io, h, body); }
        } else {
          ForwardCrashesIff(w.lib, w.cfg, y.conn, io, h, step.frame, body);
        }
      }
    }
  }

  lemma OpenersReplyInFull(w: Setting, s: State, io: Io, h: Header.RequestHeader, body: Bytes)
    requires OpensConnection(h.key)
    ensures !ReplyFallsShort(w.lib, w.cfg, s, io, h, body)
  {}

  lemma HeaderPanicsIff(frame: Bytes)
    requires |frame| <= MAX_FRAME_SIZE
    ensures HeaderPanics(frame) <==> Header.FrameGoesNegative(frame)
  {
    hide Header.ParseInt64, Header.FrameGoesNegative;
    Header.OutsideIff(frame);
  }

  lemma HeaderOfIff(frame: Bytes)
    ensures HeaderOf(frame).Some? ==> !HeaderPanics(frame)
  {
    hide Header.ParseInt64;
  }

  /** In particular, a frame whose tag lengths fit it crashes nothing by its header. */
  lemma FittingFramesDoNotPanic(frame: Bytes)
    requires |frame| <= MAX_FRAME_SIZE && Header.FrameFits(frame)
    ensures !HeaderPanics(frame)
  {
    hide Header.ParseInt64, Header.FrameFits, Header.Parse;
    Header.ParserIsExact(frame);
  }

  // ------------------------------------------------------------------ The invariant

  ghost predicate Good(w: Setting, y: System) {
    var m := Watch(y.io.trace);
    && Consistent(y.tenants) && y.tenants == Replay(w.start, m.writes)
    && Safe(w, y.io.trace)
    && Agrees(w, y.conn, m)
    && (!y.ended ==> Settled(m))
    && (y.io.crashed ==> y.ended)
  }

  /** What a step may do to a connection. */
  ghost predicate Moves(w: Setting, y: System, step: Step, z: System) {
    var m, n := Watch(y.io.trace), Watch(z.io.trace);
    && Advances(y.conn, z.conn)
    && (y.conn.upstream.Some? ==> n.dials == m.dials)
    && (n.rejected > m.rejected ==>
        && step.ClientSends? && !y.ended && !y.io.crashed
        && (!z.ended ==> FirstDialFails(w.lib, y.tenants, y.conn, y.io, step.frame)))
  }

  lemma WriteKeeps(w: Setting, y: System, write: Write)
    requires Good(w, y)
    ensures var z := y.(tenants := Apply(y.tenants, write), io := Log(y.io, Wrote(write)));
            Good(w, z) && Watch(z.io.trace) == Observe(Watch(y.io.trace), Wrote(write))
  {
    hide Safe, Watch, Apply, Consistent, Agrees, Replay;
    Extend(w, y.io.trace, Wrote(write));
    ApplyKeepsConsistent(y.tenants, write);
    ReplayOne(w.start, Watch(y.io.trace).writes, write);
    WriteAgrees(w, y.conn, Watch(y.io.trace), write);
  }

  lemma ReplayOne(start: Catalogue, log: seq<Write>, write: Write)
    ensures Replay(start, log + [write]) == Apply(Replay(start, log), write)
  {
    hide Apply;
    assert (log + [write])[..|log|] == log;
  }

  lemma WriteAgrees(w: Setting, s: State, m: Seen, write: Write)
    requires Agrees(w, s, m)
    ensures Agrees(w, s, Observe(m, Wrote(write)))
  {
    hide Plain, IsScram;
  }

  lemma NextKeeps(w: Setting, y: System, step: Step)
    requires Linked(y.conn) && Good(w, y)
    ensures Good(w, Next(w, y, step)) && Moves(w, y, step, Next(w, y, step))
  {
    hide Safe, Watch, Agrees, Serve, Apply, Consistent, FirstDialFails, Crashes, Replay, Inside;
    if !y.io.crashed {
      CrashesIff(w, y, step);
      match step
      case Admin(write) => WriteKeeps(w, y, write);
      case ClientGone =>
      case OthersCrash =>
      case ClientSends(frame) =>
        if !y.ended && Sendable(frame) {
          ServeKeeps(w, y.tenants, y.conn, y.io, frame);
        }
    }
  }

  /** Every run keeps the invariant. */
  lemma {:induction false} RunIsGood(w: Setting, io: Io, steps: seq<Step>)
    requires Consistent(w.start)
    ensures Good(w, After(w, Start(w, io), steps))
    decreases |steps|
  {
    if steps == [] {
      assert Watch([]) == NOTHING;
    } else {
      hide Good, Next;
      var n := |steps| - 1;
      RunIsGood(w, io, steps[..n]);
      NextKeeps(w, After(w, Start(w, io), steps[..n]), steps[n]);
    }
  }

  /** The connection invariant, over all runs. */
  lemma ConnectionInvariant(w: Setting, io: Io, steps: seq<Step>)
    requires Consistent(w.start)
    ensures var c := After(w, Start(w, io), steps).conn;
            && (c.mechanism == [] <==> c.phase == AwaitHandshake)
            && (c.phase == AwaitHandshake || c.phase == AwaitAuth ==> c.upstream == None)
            && (c.phase == RelayInFlight || (c.phase == Authenticated && IsScram(c.mechanism)) ==> c.upstream.Some?)
            && (c.upstream.Some? ==> c.upstream.value.addr == c.tenant.upstream)
            && c.rounds <= 2
            && (c.rounds == 2 <==> c.phase == Authenticated && IsScram(c.mechanism))
            && (IsScram(c.mechanism) ==> c.password == [])
            && (c.phase == RelayInFlight || c.phase == Authenticated ==> c.tenant.topicPrefix != [])
  {
    hide Safe, Watch, Consistent, After, Replay;
    RunIsGood(w, io, steps);
    MechanismsDiffer();
  }

  /** For a SCRAM client ensureUpstream never dials. */
  lemma ScramNeverDialsLate(w: Setting, io: Io, steps: seq<Step>)
    requires Consistent(w.start)
    ensures var y := After(w, Start(w, io), steps);
            y.conn.phase == Authenticated && IsScram(y.conn.mechanism) ==>
            EnsureUpstream(w.lib, w.cfg, y.conn, y.io) == Outcome(y.conn, y.io, true)
  {
    hide After;
    ConnectionInvariant(w, io, steps);
  }

  /** From `y` on to `z`: no step back, nothing unseen, and no dial if there was an
      upstream already. */
  ghost predicate Progress(y: System, z: System) {
    && Advances(y.conn, z.conn) && y.io.trace <= z.io.trace
    && (y.conn.upstream.Some? ==> NoneAfter(z.io.trace, |y.io.trace|, IsDial()))
  }

  lemma ProgressNone(y: System)
    ensures Progress(y, y)
  {}

  lemma ProgressStep(w: Setting, y: System, x: System, step: Step)
    requires Linked(x.conn) && Good(w, x) && Progress(y, x)
    ensures Progress(y, Next(w, x, step))
  {
    hide Good, Next, Watch, NoneAfter, FirstDialFails;
    NextKeeps(w, x, step);
    NoDialSince(y.io.trace, x.io.trace, Next(w, x, step).io.trace);
  }

  /** Later steps, catalogue writes among them, never take back what earlier ones
      settled: the phase, the mechanism, the bound tenant, the upstream, what has been
      seen. And an upstream is assigned once: with one there, nothing is ever dialed
      again. */
  lemma {:induction false} RunsOnlyAdvance(w: Setting, io: Io, steps: seq<Step>, k: nat)
    requires Consistent(w.start) && k <= |steps|
    ensures Progress(After(w, Start(w, io), steps[..k]), After(w, Start(w, io), steps))
    decreases |steps|
  {
    hide Good, Next, Progress;
    if k == |steps| {
      assert steps[..k] == steps;
      ProgressNone(After(w, Start(w, io), steps));
    } else {
      var n := |steps| - 1;
      RunsOnlyAdvance(w, io, steps[..n], k);
      assert steps[..n][..k] == steps[..k];
      RunIsGood(w, io, steps[..n]);
      ProgressStep(w, After(w, Start(w, io), steps[..k]), After(w, Start(w, io), steps[..n]), steps[n]);
    }
  }

  lemma NoDialSince(a: seq<Event>, b: seq<Event>, c: seq<Event>)
    requires a <= b <= c
    ensures NoneAfter(b, |a|, IsDial()) && Watch(c).dials == Watch(b).dials ==> NoneAfter(c, |a|, IsDial())
  {
    hide Watch;
    DialsCounted(c, |b|);
    assert c[..|b|] == b;
  }

  // ----------------------------------------------------------------- The catalogue

  /** The writes a run attempts. */
  function Attempted(steps: seq<Step>): seq<Write> {
    if steps == [] then []
    else
      var last := steps[|steps| - 1];
      Attempted(steps[..|steps| - 1]) + if last.Admin? then [last.write] else []
  }

  /** In every run the trace shows the writes attempted, all of them unless the process
      has crashed. */
  lemma {:induction false} WritesAreTraced(w: Setting, io: Io, steps: seq<Step>)
    requires Consistent(w.start)
    ensures var z := After(w, Start(w, io), steps);
            !z.io.crashed ==> Watch(z.io.trace).writes == Attempted(steps)
    decreases |steps|
  {
    if steps == [] {
      assert Watch([]) == NOTHING;
    } else {
      hide Watch, Good, Next;
      var n := |steps| - 1;
      WritesAreTraced(w, io, steps[..n]);
      RunIsGood(w, io, steps[..n]);
      var y := After(w, Start(w, io), steps[..n]);
      if !y.io.crashed {
        NextWrites(w, y, steps[n]);
      }
    }
  }

  lemma NextWrites(w: Setting, y: System, step: Step)
    requires Linked(y.conn) && Good(w, y) && !y.io.crashed
    ensures Watch(Next(w, y, step).io.trace).writes
            == Watch(y.io.trace).writes + if step.Admin? then [step.write] else []
  {
    hide Safe, Watch, Agrees, Serve, Apply, Consistent, FirstDialFails, Replay, Inside;
    match step
    case Admin(write) => WriteKeeps(w, y, write);
    case ClientGone =>
    case OthersCrash =>
    case ClientSends(frame) =>
      if !y.ended && Sendable(frame) {
        ServeKeeps(w, y.tenants, y.conn, y.io, frame);
      }
  }

  /** The catalogue of every run is the history of the writes attempted in it. */
  lemma CatalogueFollowsWrites(w: Setting, io: Io, steps: seq<Step>)
    requires Consistent(w.start)
    ensures var z := After(w, Start(w, io), steps);
            && z.tenants == Replay(w.start, Writes(z.io.trace)) && Consistent(z.tenants)
            && (!z.io.crashed ==> Writes(z.io.trace) == Attempted(steps))
  {
    hide After, Watch, Safe, Agrees, Consistent, Attempted, Writes, Replay;
    RunIsGood(w, io, steps);
    WritesAreTraced(w, io, steps);
    WritesSeen(After(w, Start(w, io), steps).io.trace);
  }

  /** Every lookup in every run is answered out of the writes that came before it: with
      the last one about the id that succeeded, or, without one, with what the catalogue
      held at the start. */
  lemma LookupsFollowWrites(w: Setting, io: Io, steps: seq<Step>, i: nat)
    requires Consistent(w.start)
    requires var trace := After(w, Start(w, io), steps).io.trace; i < |trace| && trace[i].Looked?
    ensures var trace := After(w, Start(w, io), steps).io.trace;
            var log := Writes(trace[..i]);
            && (forall k: nat | LastAbout(w.start, log, trace[i].id, k) ::
                  trace[i].found == if log[k].Set? then Some(log[k].tenant) else None)
            && ((forall k: nat | k < |log| :: About(log[k]) == trace[i].id ==> !Succeeds(w.start, log, k)) ==>
                trace[i].found == Find(w.start, trace[i].id))
            && (trace[i].id != [] ==>
                && (forall k: nat | LastDelete(log, trace[i].id, k) ::
                      trace[i].found == FirstSet(log, trace[i].id, k + 1))
                && ((forall k: nat | k < |log| :: log[k] != Delete(trace[i].id)) ==>
                    trace[i].found
                    == if trace[i].id in w.start then Some(w.start[trace[i].id]) else FirstSet(log, trace[i].id, 0)))
  {
    hide After, Watch, Safe, Agrees, Consistent, Writes, Replay, Find, Succeeds, LastAbout, NamedTenant, LastDelete,
         FirstSet;
    RunIsGood(w, io, steps);
    var trace := After(w, Start(w, io), steps).io.trace;
    SafeAt(w, trace, i);
    WritesSeen(trace[..i]);
    var log := Writes(trace[..i]);
    forall k: nat | LastAbout(w.start, log, trace[i].id, k)
      ensures k < |log| && trace[i].found == if log[k].Set? then Some(log[k].tenant) else None
    {
      LastInLog(w.start, log, trace[i].id, k);
      LookupFollowsHistory(w.start, log, trace[i].id, k);
    }
    if forall k: nat | k < |log| :: About(log[k]) == trace[i].id ==> !Succeeds(w.start, log, k) {
      LookupWithoutHistory(w.start, log, trace[i].id);
    }
    if trace[i].id != [] {
      DeletionsDecide(w.start, log, trace[i].id);
    }
  }

  /** Write k is the last deletion of `id`. */
  ghost predicate LastDelete(log: seq<Write>, id: Bytes, k: nat) {
    k < |log| && log[k] == Delete(id) && forall j | k < j < |log| :: log[j] != Delete(id)
  }

  lemma DeletionsDecide(start: Catalogue, log: seq<Write>, id: Bytes)
    requires id != []
    ensures forall k: nat | LastDelete(log, id, k) :: Find(Replay(start, log), id) == FirstSet(log, id, k + 1)
    ensures (forall k: nat | k < |log| :: log[k] != Delete(id)) ==>
            Find(Replay(start, log), id) == if id in start then Some(start[id]) else FirstSet(log, id, 0)
  {
    hide Find, Replay, FirstSet;
    forall k: nat | LastDelete(log, id, k) ensures Find(Replay(start, log), id) == FirstSet(log, id, k + 1) {
      LookupSinceDelete(start, log, id, k);
    }
    if forall k: nat | k < |log| :: log[k] != Delete(id) {
      LookupUndeleted(start, log, id);
    }
  }

  /** From event i to event j no valid tenant is set under `id`. */
  ghost predicate NoneSet(trace: seq<Event>, id: Bytes, i: nat, j: nat)
    requires j <= |trace|
  {
    forall k | i <= k < j :: trace[k].Wrote? && trace[k].write.Set? && trace[k].write.tenant.id == id ==>
      !ValidTenant(trace[k].write.tenant)
  }

  lemma {:induction false} GoneUntilSet(start: Catalogue, trace: seq<Event>, id: Bytes, i: nat, j: nat)
    requires i < j <= |trace| && trace[i] == Wrote(Delete(id)) && id != [] && NoneSet(trace, id, i, j)
    ensures Find(Replay(start, Writes(trace[..j])), id) == None
    decreases j
  {
    hide Find, Replay, Apply, ValidTenant;
    var n := j - 1;
    assert trace[..j][..n] == trace[..n];
    var log := Writes(trace[..n]);
    if trace[n].Wrote? {
      if trace[n].write == Delete(id) {
        DeleteIff(Replay(start, log), id);
        ReplayOne(start, log, Delete(id));
      } else {
        GoneUntilSet(start, trace, id, i, n);
        FindSnoc(start, log, trace[n].write, id);
      }
    } else {
      GoneUntilSet(start, trace, id, i, n);
      assert log + [] == log;
    }
  }

  /** In every run, once an ID has been deleted no lookup finds it, until a valid tenant is
      set under it again. */
  lemma DeletedIsGone(w: Setting, io: Io, steps: seq<Step>, i: nat, j: nat)
    requires Consistent(w.start)
    requires var trace := After(w, Start(w, io), steps).io.trace;
             && i < j < |trace| && trace[i].Wrote? && trace[i].write.Delete? && trace[i].write.id != []
             && trace[j].Looked? && trace[j].id == trace[i].write.id && NoneSet(trace, trace[j].id, i, j)
    ensures After(w, Start(w, io), steps).io.trace[j].found == None
  {
    hide After, Watch, Safe, Agrees, Consistent, Writes, Replay, Find, NamedTenant;
    RunIsGood(w, io, steps);
    var trace := After(w, Start(w, io), steps).io.trace;
    SafeAt(w, trace, j);
    WritesSeen(trace[..j]);
    GoneUntilSet(w.start, trace, trace[j].id, i, j);
  }

  lemma LastInLog(start: Catalogue, log: seq<Write>, id: Bytes, k: nat)
    requires LastAbout(start, log, id, k)
    ensures k < |log|
  {}

  // --------------------------------------------------------------- Rejected replies

  /** A dial dropped for a SCRAM client's first message is answered, and leaves no more
      behind than the tenant looked up. */
  lemma DroppedDial(w: Setting, tenants: Catalogue, s: State, io: Io, frame: Bytes)
    requires Linked(s) && FirstDialFails(w.lib, tenants, s, io, frame)
    ensures var r := Serve(w.lib, w.cfg, tenants, s, io, frame);
            && r.ok == (io.writes != [] && io.writes[0])
            && r.state == s.(tenant := r.state.tenant)
  {
    hide HeaderOf, ParseClientFirst, DialRelay, ResponseFrame, RelayRound;
  }

  /** A broker reply that is missing, short or under another id ends the connection, but
      for one case: it came in the dial for a SCRAM client's first message, and the client
      could be told. Then nothing but the tenant looked up has changed. */
  lemma RejectedReplyEndsIff(w: Setting, io: Io, steps: seq<Step>, step: Step)
    requires Consistent(w.start)
    requires var y := After(w, Start(w, io), steps);
             Watch(Next(w, y, step).io.trace).rejected > Watch(y.io.trace).rejected
    ensures var y := After(w, Start(w, io), steps);
            var z := Next(w, y, step);
            && step.ClientSends?
            && (!z.ended <==>
                FirstDialFails(w.lib, y.tenants, y.conn, y.io, step.frame) && y.io.writes != [] && y.io.writes[0])
            && (!z.ended ==> z.conn == y.conn.(tenant := z.conn.tenant))
  {
    hide After, Good, Watch, FirstDialFails, Serve, Advances;
    RunIsGood(w, io, steps);
    var y := After(w, Start(w, io), steps);
    NextKeeps(w, y, step);
    if FirstDialFails(w.lib, y.tenants, y.conn, y.io, step.frame) {
      DroppedDial(w, y.tenants, y.conn, y.io, step.frame);
    }
  }

  // ------------------------------------------------------------------ The serve loop

  function Sending(frames: seq<Bytes>): seq<Step> {
    seq(|frames|, i requires 0 <= i < |frames| => ClientSends(frames[i]))
  }

  lemma {:induction false} AfterCons(w: Setting, y: System, step: Step, steps: seq<Step>)
    requires Linked(y.conn)
    ensures After(w, y, [step] + steps) == After(w, Next(w, y, step), steps)
    decreases |steps|
  {
    var all := [step] + steps;
    if steps == [] {
      assert all[..0] == [];
    } else {
      hide Next;
      assert all[..|all| - 1] == [step] + steps[..|steps| - 1];
      AfterCons(w, y, step, steps[..|steps| - 1]);
    }
  }

  lemma {:induction false} AfterEnded(w: Setting, y: System, frames: seq<Bytes>)
    requires Linked(y.conn) && y.ended
    ensures After(w, y, Sending(frames)) == y
    decreases |frames|
  {
    if frames != [] {
      var n := |frames| - 1;
      assert Sending(frames)[..n] == Sending(frames[..n]);
      AfterEnded(w, y, frames[..n]);
    }
  }

  /** The serve loop is the run of the frames its client's bytes hold. */
  lemma {:induction false} ServeLoopIsRun(w: Setting, y: System, data: Bytes)
    requires Linked(y.conn) && !y.ended && !y.io.crashed
    ensures var z := After(w, y, Sending(ReadAll(data).0));
            ServeStream(w.lib, w.cfg, y.tenants, y.conn, y.io, data) == (z.conn, z.io)
    decreases |data|
  {
    hide Serve, Read, Crashes;
    if Read(data).0.Frame? {
      var (r, rest) := Read(data);
      ReadFrameIsWritten(data);
      var frames := ReadAll(rest).0;
      assert Sending([r.body] + frames) == [ClientSends(r.body)] + Sending(frames);
      AfterCons(w, y, ClientSends(r.body), Sending(frames));
      CrashesIff(w, y, ClientSends(r.body));
      var z := Next(w, y, ClientSends(r.body));
      if z.ended {
        AfterEnded(w, z, frames);
      } else {
        ServeLoopIsRun(w, z, rest);
      }
    } else {
      assert Sending([]) == [];
    }
  }
}
