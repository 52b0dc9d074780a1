# A verified model of kroxy

kroxy is a proxy that lets many tenants share one Kafka cluster. It authenticates a
client with SASL, looks its username up as a tenant ID, and from then on forwards the
client's requests to the tenant's broker with the tenant's prefix added to every name, and
the broker's responses with the prefix removed. This project models that behaviour in Dafny
and proves what kroxy promises of it:

- a tenant whose own requests name what they touch cannot tell the shared cluster from a
  cluster of its own, whatever the broker does and whatever the other tenants do and name,
  exactly when no other tenant's prefix is comparable with its own (`Isolation`); and that is
  what all its clients are told, over any number of connections, whoever else is connected
  (`EndToEnd`);
- in every run, nothing is forwarded before a handshake, a lookup and the broker's approval;
  nothing is forwarded but the request at hand under the prefix of the tenant looked up;
  credentials and SCRAM messages reach the broker, and its verdicts the client, as they
  were given; and every request gets one answer, in order, under its own correlation id,
  but for the last of a connection that has ended (`Runs`, `Guarantees`);
- each kind of request is answered exactly under conditions on the client's frame and the broker's
  frames that are spelled out, dials and SCRAM sessions included (`Dialing`, `Service`);
- what members of a consumer group tell each other through the proxy arrives as it was
  said (`ConsumerGroups`);
- frames, headers, varints and SASL payloads are read exactly as they are written
  (`Framing`, `Header`, `Varint`, `Auth`).

`dafny verify dfyconfig.toml` checks all of it.

## How it is modelled

A Go string and a Go byte slice are both `Bytes`. Code that works in place is a method on an
array or on an object, proved equal to a function on values; the theorems are about those
functions.

- **Names and messages** (`Prefix`, `Rewriters`): the rewriters on the fields they visit; every
  other field of a message is its `payload`.
- **The broker** (`Store`, `Cluster`): records under opaque topic and group names, listed in
  insertion order. What an operation does to a record and what it answers are arbitrary
  functions, so the isolation theorems hold for every broker of this kind.
- **The outside world** (`Upstream`): an `Io` value holds the trace of events so far and what
  is still to come: the broker's replies, and whether TCP dials and client writes succeed. A
  failed write to the broker is a reply that does not come. The kmsg codec and the SCRAM client
  are the functions of a `Library`, and any will do. A panic sets `crashed`: nothing in the source
  recovers from one, so it ends the process, and nothing happens after it.
- **The connection** (`Connection`): a client connection is an object, one method a handler; each
  is proved equal to a function on its state and on the world.
- **Runs** (`Monitor`, `Invariant`, `Runs`, `Guarantees`): any sequence of client frames, catalogue
  writes, disconnects and crashes of the process by other connections. `Monitor` says what a trace
  must look like without mentioning the connection's state; `Invariant` proves that one request
  keeps state and trace in agreement; `Guarantees` reads off the trace what that comes to. A frame
  that cannot be read ends the connection. `Witnesses` holds runs in which exceptions occur.
- **What clients get** (`Dialing`, `Service`): the effect of one request on any connection, said in
  terms of frames, without the functions above.
- **The whole** (`Traffic`, `EndToEnd`): any number of such connections in one process, and a broker
  of the kind above that carries out what their traces show it was sent, and whose frames, where they
  come, are its responses as Kafka lays them out. What is assumed of the codec can be met
  (`EndToEnd.OneNameFits`).

## Where the code and its promises part

- The resolver does not compare prefixes. Isolation holds exactly for incomparable ones
  (`Isolation.IsolatedIff`); with comparable ones a topic one tenant creates shows in the other's
  listing.
- Every name is to be rewritten. Of the keys the proxy knows, those whose messages name something are
  rewritten exactly if they are advertised to clients (`Keys.RewriterIff`), which is all but one:
  OffsetForLeaderEpoch names topics and goes out as it came (`Witnesses.UnadvertisedGoesRaw`). So does
  every key the proxy does not know.
- The empty name is prefixed for nobody, so all tenants share the empty group: one tenant reads the
  offsets another commits to it (`Isolation.EmptyGroupIsShared`). For a tenant apart from the others
  a run looks dedicated, whatever the broker and the start, exactly when that tenant's own requests
  reach no record by an empty or null name (`Isolation.RunLooksDedicatedIff`).
- The header parser adds a tagged field's length as a 64-bit int. It is exact, and its loop turns at
  most once for every two bytes, unless a length reaches past that range
  (`Header.StaysInsideIff`, `Header.ParserIsExact`, `Header.FrameRoundsBound`); what it accepts is
  the frame's header exactly then (`Header.AcceptedIsHeaderIff`). With lengths that do,
  a frame is accepted that holds no header (`Header.OversizedLengthIsAccepted`); the parser panics,
  or gives a negative size (`Header.OversizedLengthPanics`); and a frame of 40 bytes keeps the loop
  turning as often as it declares, up to 2^64 - 1 times (`Header.OversizedLengthRepeats`).
- A panic ends the process, with all its connections. `Runs.CrashesIff` says exactly which requests
  cause one: those with a tagged field, on the way over the fields, that ends between 2^63 and 2^64
  (`Header.OutsideIff`), and rewritten requests whose reply carries the right id and ends before its
  own header (`Witnesses.ShortReplyCrashes`).
- `ReadFrame` documents that it returns io.EOF at a clean boundary only. It also returns it,
  wrapped, when a stream ends right after a length (`Framing.EndOfStreamIff`).
- A JoinGroup response that does not name its protocol type is treated as a consumer group's, so
  another protocol's blob can be rewritten (`ConsumerGroups.UnnamedJoinStrips`);
  `ConsumerGroups.JoinGroupRoundTrip` says exactly when it is not.
- The same holds of SyncGroup, on both ways: where the leader's request names another type and a
  member's answer names none, the assignment arrives stripped (`ConsumerGroups.UnnamedAnswerStrips`);
  `ConsumerGroups.SyncGroupRoundTrip` gives the exact condition for each mix.
- A rejected broker reply does not always end the connection (`Witnesses.RejectedReplySurvives`): it
  survives exactly if the reply came in a dial for a SCRAM client's first message and the client
  could be told (`Runs.RejectedReplyEndsIff`).

## Model

| member | source | states |
|---|---|---|
| `Prefix.StripUndoesPrefix` | rewrite/rewrite.go:13-47 | a name prefixed and then stripped is the name the client used, for every prefix and name, and for nullable names |
| `Prefix.PrefixUndoesStripIff` | rewrite/rewrite.go:13-38 | stripping then prefixing is the identity exactly for an empty prefix, an empty name, or an own name that is not the bare prefix |
| `Prefix.VisibleIff` | rewrite/rewrite.go:52-57 | exactly which upstream names of one tenant another tenant's filter lets through |
| `Prefix.IsolationIff` | rewrite/rewrite.go:13-57 | two tenants' upstream names are disjoint exactly when neither prefix is a prefix of the other |
| `Prefix.SharedNameIff` | rewrite/rewrite.go:13-18 | what tenants with incomparable prefixes still share is the empty name and nothing else |
| `Rewriters.StripUndoesPrefixEntries` | rewrite/topics_admin.go:11-42 | names sent and echoed come back as the client sent them, with everything beside them |
| `Rewriters.PrefixEntriesInPlace` | rewrite/produce_fetch.go:6-10 | the in-place request loop prefixes every name and changes nothing else |
| `Rewriters.StripEntriesInPlace` | rewrite/produce_fetch.go:14-18 | the in-place response loop strips every name and changes nothing else |
| `Rewriters.OffsetFetchGroupsIn` | rewrite/groups.go:66-72 | the nested loop prefixes every group and every topic in it, and leaves a null topic list null |
| `Rewriters.ListGroupsInPlace` | rewrite/groups.go:229-239 | filtering into the array being read loses no unread group: the result is the tenant's groups, in order, stripped |
| `Rewriters.DescribeConfigsInPlace` | rewrite/topics_admin.go:62-75 | the same for config resources, other kinds than topics and groups kept as they are |
| `Rewriters.DescribeConfigsRequestInPlace` | rewrite/topics_admin.go:47-55 | the request loop prefixes topics and groups and nothing else |
| `Rewriters.DescribeConfigsSound` | rewrite/topics_admin.go:62-75 | whatever the broker answers, every topic or group a tenant is told of carries its prefix there, and every other resource is as it was |
| `Rewriters.DescribeConfigsRoundTripIff` | rewrite/topics_admin.go:47-75 | what a tenant asks about comes back under the names it used exactly when no topic or group among it is nameless |
| `Rewriters.DescribeConfigsForeign` | rewrite/topics_admin.go:47-75 | of what a tenant with an incomparable prefix asks about, topics and groups are not seen at all |
| `Rewriters.MetadataResponse.RewriteOut` | rewrite/metadata.go:25-63 | the in-place rewrite gives one virtual broker and the tenant's named topics, in order, stripped, all node ids zero |
| `Rewriters.MetadataReferentialClosure` | rewrite/metadata.go:25-63 | a rewritten response has one broker, id 0, at the advertised host and port, in the rack of the first; each controller, leader, replica, ISR and offline id names it; kept topics keep their partitions, order and list lengths |
| `Isolation.OwnStep` | rewrite/rewrite.go:1-8 | a tenant's request to the shared cluster, through the proxy, takes the step and gets the answer its dedicated cluster would take and give |
| `Isolation.ForeignStep` | rewrite/rewrite.go:1-8 | a request of a tenant with an incomparable prefix, whatever it names, leaves the dedicated cluster as it was |
| `Isolation.DedicatedClusterRefinement` | README.md:10-11 | for every broker and interleaving, a tenant apart from the others, whose own requests are well named and whose groups start without other topics' offsets, gets the responses of a private cluster fed its requests only, and leaves that cluster's state and no such offset |
| `Isolation.NonInterference` | README.md:43-45 | two runs in which such a tenant makes the same requests over the same slice of the cluster give it the same responses, whatever the others do and name |
| `Isolation.NodesAreHidden` | rewrite/metadata.go:25-63 | brokers that differ only in their nodes' ids, addresses and number, and in the controller, give every tenant the same responses in every run, if their first nodes are in the same rack |
| `Isolation.IsolatedIff` | resolver/memory.go:89-98 | a tenant sees a dedicated cluster in all such runs exactly when its prefix is incomparable with every other |
| `Isolation.StartLooksDedicatedIff` | rewrite/rewrite.go:52-57 | for a tenant apart from the others, a given start looks dedicated for all brokers and all runs in which its own requests are well named exactly when the groups it can name hold offsets for its own topics only |
| `Isolation.RunLooksDedicatedIff` | rewrite/rewrite.go:13-18 | for a tenant apart from the others, a given run looks dedicated for all brokers and starts exactly when its own requests reach no record by an empty or null name |
| `Isolation.ComparablePrefixLeaks` | resolver/memory.go:89-98 | for comparable prefixes, a run, with its responses, in which the topic one tenant creates shows in the other's listing, and the empty listing of a cluster of its own |
| `Isolation.EmptyGroupIsShared` | rewrite/rewrite.go:14-16 | whatever the prefixes, a commit by one tenant and a fetch by another, both on the empty group, with the offsets the second reads and the none it would read in a cluster of its own |
| `ConsumerGroups.RewriteConsumerSubscription` | rewrite/groups.go:111-126 | the loops over topics and owned partitions rename both and keep the rest; an empty or undecodable blob is returned as it is |
| `ConsumerGroups.RewriteConsumerAssignment` | rewrite/groups.go:130-142 | the same for assignments |
| `ConsumerGroups.JoinGroupRoundTrip` | rewrite/groups.go:146-167 | the leader reads of each member the subscription it submitted; in other groups the same bytes, or exactly when so if the response names no protocol type |
| `ConsumerGroups.UnnamedJoinStrips` | rewrite/groups.go:158-167 | a group of another type whose answer names no type: a member's blob that the leader reads stripped |
| `ConsumerGroups.SyncGroupRoundTrip` | rewrite/groups.go:171-190 | whether or not request and answer name the group's type: in a consumer group each member reads the assignment the leader made; in any other the same bytes exactly when each rewriter on the way that takes the group for a consumer group leaves the blob alone |
| `ConsumerGroups.UnnamedAnswerStrips` | rewrite/groups.go:182-190 | a group of another type whose leader names it and whose answer does not: an assignment that arrives stripped |
| `ConsumerGroups.GroupsApartIff` | rewrite/groups.go:146-173 | tenants with incomparable prefixes never join or sync the same group, unless both leave its name empty |
| `Varint.ReadUvarint` | protocol/header.go:117-131 | the or-and-shift loop gives the base-128 digits up to the first byte below 0x80, modulo 2^64, from at most ten bytes, and tells overflow from truncation |
| `Varint.UvarintRoundTrip` | protocol/header.go:117-131 | the reader inverts the canonical encoding of every uint64, whatever follows |
| `Varint.UvarintLocal` | protocol/header.go:117-131 | a varint that is read depends on its own bytes only |
| `Header.ParseRequestHeader` | protocol/header.go:59-115 | the parser's loop, with Go's 64-bit arithmetic and index panics, is its specification, and turns as often as that counts |
| `Header.BoundCheckIff` | protocol/header.go:107 | the parser's bounds check fires exactly on fields that end past the frame and within the int range |
| `Header.StaysInsideIff` | protocol/header.go:96-111 | every field stepped over lies in the frame exactly when no length reaches past the int range before one reaches past the frame; and then the loop is exact |
| `Header.ParserIsExact` | protocol/header.go:59-115 | on such frames the parser never panics, accepts exactly the frames that hold a header, and gives that header, of 10 bytes at least and the frame at most |
| `Header.SmallLengthsFit` | protocol/header.go:96-111 | frames on which every length met on the way over the fields is below 2^31 are such frames |
| `Header.FrameRoundsBound` | protocol/header.go:96-111 | whatever count such a frame declares, the parser's loop turns at most once for every two of its bytes |
| `Header.HeaderRoundTrip` | protocol/header.go:32-115 | any version 1 or 2 header, followed by any body, parses to its fields and its exact length |
| `Header.AcceptedIsHeaderIff` | protocol/header.go:59-115 | what the parser accepts is the header the frame holds exactly when the frame's lengths fit |
| `Header.OutsideIff` | protocol/header.go:96-111 | the parser indexes outside the frame, or gives a size outside it, exactly when, on the way over the fields, one ends between 2^63 and 2^64 |
| `Header.HeaderLocality` | protocol/header.go:59-115 | what the parser accepts in such a frame depends on the header's own bytes only |
| `Header.OversizedLengthIsAccepted` | protocol/header.go:107-110 | a frame with a length of 2^64 - 1 is accepted although it holds no such field |
| `Header.OversizedLengthPanics` | protocol/header.go:96-110 | a length of 2^63: a frame on which the parser panics, and one it accepts with a negative size |
| `Header.OversizedLengthRepeats` | protocol/header.go:96-110 | a length of 2^64 - 11: for every count, a frame of at most 40 bytes on which the loop turns that often |
| `Framing.Wire.ReadFrame` | protocol/framing.go:19-39 | one read takes one frame off the stream, or fails as specified |
| `Framing.Wire.WriteFrame` | protocol/framing.go:42-52 | one write appends the body under its length as a uint32 |
| `Framing.FrameRoundTripIff` | protocol/framing.go:19-52 | a written body is read back, and nothing after it touched, exactly when its length is between 1 and the limit |
| `Framing.EndOfStreamIff` | protocol/framing.go:16-38 | exactly when the end of the stream is reported, bare and wrapped |
| `Framing.ReadAllIsExact` | protocol/framing.go:19-39 | every stream is the frames read from it, as written, followed by what could not be read |
| `Framing.ReadAllWritten` | protocol/framing.go:19-52 | a list of bodies written one after another is read back as that list |
| `Framing.CutStream` | protocol/framing.go:19-39 | a stream cut after any number of its bytes gives the whole frames before the cut and no other, ending bare exactly when cut between frames |
| `Auth.ParsePlain` | auth/sasl_plain.go:50-72 | the scan for two NULs is two cuts at the first NUL |
| `Auth.PlainIff` | auth/sasl_plain.go:45-72 | exactly the messages of section 2 of RFC 4616 are accepted, each as the credentials it carries, NULs in passwords included |
| `Auth.UpstreamPlainIff` | upstream/conn.go:320-323 | the message sent upstream carries the credentials exactly when the username has no NUL |
| `Auth.UnescapeIff` | auth/sasl_scram.go:96-133 | escaping and decoding saslnames (section 5.1 of RFC 5802) are inverse bijections |
| `Auth.DecodeSASLname` | auth/sasl_scram.go:99-133 | fast path and loop both decode as specified |
| `Auth.ClientFirstIff` | auth/sasl_scram.go:36-94 | exactly the client-first-messages of section 7 of RFC 5802 with flag "n" are accepted, each read as the one message it is |
| `Auth.ParseSCRAMClientFirstUsername` | auth/sasl_scram.go:36-85 | the tenant ID returned is that message's unescaped name |
| `Keys.RewriterIff` | proxy/conn.go:143-193 | the keys with a rewrite handler are exactly the advertised ones whose messages name a topic, group, transactional id or config resource |
| `Resolver.BuiltIff` | resolver/memory.go:22-34 | a catalogue is built exactly from valid tenants with distinct IDs, and holds each under its ID and nothing else |
| `Resolver.SetIff` | resolver/memory.go:49-60 | a tenant with all its fields under a new ID is found from then on, any other write changes nothing, and the error tells the two failures apart |
| `Resolver.DeleteIff` | resolver/memory.go:64-75 | after a deletion nothing is found under the ID and everything else as before; it succeeds exactly if something was there |
| `Resolver.ReplayIsConsistent` | resolver/memory.go:49-75 | no history of writes leaves an invalid or misfiled tenant |
| `Resolver.LookupFollowsHistory` | resolver/memory.go:37-75 | a lookup answers with the last successful write about the ID |
| `Resolver.LookupWithoutHistory` | resolver/memory.go:37-75 | and without one with what the catalogue started with |
| `Resolver.LookupSinceDelete` | resolver/memory.go:37-75 | after the last deletion of an ID a lookup answers with the first valid tenant set under it since, or nothing |
| `Resolver.LookupUndeleted` | resolver/memory.go:37-75 | an ID never deleted is found as at the start, or else as first set |
| `Resolver.MemoryResolver.Load` | resolver/memory.go:22-34 | the loop stops at the first bad tenant and names its fault |
| `Resolver.MemoryResolver.Get` | resolver/memory.go:37-45 | a tenant found is valid and has the ID asked for |
| `Resolver.MemoryResolver.SetTenant` | resolver/memory.go:49-60 | the tenant is added exactly if it has all its fields and a new ID, and else nothing changes and the error says why |
| `Resolver.MemoryResolver.DeleteTenant` | resolver/memory.go:64-75 | the ID is gone afterwards; the error says whether it was there |
| `Upstream.IdsRepeatIff` | upstream/conn.go:205 | ids repeat exactly every 2^32 requests, across the int32 wrap |
| `Upstream.ExchangeReads` | upstream/conn.go:270-285 | an exchange whose next broker frame is a response as Kafka lays it out, header and body, gives the body |
| `Upstream.ExchangeIs` | upstream/conn.go:257-285 | what an exchange gives is what the next frame holds behind the header of a response to it, and nothing if it is not one |
| `Upstream.PassthroughIs` | upstream/conn.go:214-248 | a frame passed through, and its reply, change in the four bytes of their ids only |
| `Upstream.Conn.RoundTripRequest` | upstream/conn.go:257-285 | a request goes out under a fresh id and the client id given, and only a reply under that id is accepted; one that ends before its header crashes the process |
| `Upstream.Conn.RoundTrip` | upstream/conn.go:214-248 | the client's frame goes out with just its id replaced, and the reply comes back with just its id replaced |
| `Upstream.Conn.RelaySASLAuthenticate` | upstream/conn.go:349-369 | one relayed round, with the broker's verdict |
| `Upstream.Conn.ScramAuthenticate` | upstream/conn.go:125-170 | the loop runs the session's rounds until it is done, and fails on any other verdict than 0 |
| `Upstream.DialAndNegotiate` | upstream/conn.go:176-197 | a connection results only from a TCP dial, an ApiVersions exchange and a handshake answered with 0 |
| `Upstream.Dial` | upstream/conn.go:53-67 | and, for PLAIN, from a verdict of 0 on the credentials |
| `Upstream.DialSCRAM` | upstream/conn.go:101-118 | and, when translating, from a completed SCRAM session |
| `Upstream.DialForSCRAM` | upstream/conn.go:75-91 | for relaying, negotiation only |
| `Dialing.ConnectsThen` | upstream/conn.go:53-197 | a dial succeeds if the broker's frames answer ApiVersions and the handshake, with 0, and approve of the credentials or of a SCRAM session with them until it is done; it takes just those frames |
| `Dialing.ConnectsIf` | upstream/conn.go:53-197 | and no other dial does |
| `Connection.ResponseReads` | proxy/conn.go:504-510 | a client reading a response to its request gets its id and then exactly the body |
| `Connection.ClientConn.HandleSaslHandshake` | proxy/conn.go:280-305 | the first handshake for PLAIN or SCRAM sets the mechanism and moves to await-auth; any other leaves the connection as it was and is answered with its fault |
| `Connection.ClientConn.HandleSaslAuthenticatePlain` | proxy/conn.go:335-387 | only in await-auth, only for a PLAIN message and a tenant found: bind tenant and password; the upstream is not touched |
| `Connection.ClientConn.HandleSaslAuthenticateSCRAM` | proxy/conn.go:395-483 | a first message is parsed, looked up and dialed before it is relayed, later ones are relayed as they are; two verdicts of 0 in all authenticate; a failed dial leaves await-auth |
| `Connection.ClientConn.Ensure` | proxy/conn.go:214-240 | an upstream that exists is kept; else one dial, as the bound tenant with the held password, PLAIN or translated to SCRAM |
| `Connection.ClientConn.ForwardRewritten` | proxy/rewrite.go:30-141 | decode and prefix, exchange under a fresh id and the client's client id, decode and strip, answer under the client's id; a failure anywhere ends the connection unanswered |
| `Connection.ClientConn.ForwardPassthrough` | proxy/conn.go:488-502 | the client's bytes go out and the broker's come back, but for the ids |
| `Connection.ClientConn.DispatchRequest` | proxy/conn.go:120-138 | ApiVersions and SASL requests are answered in any phase, all others end a connection that is not authenticated |
| `Connection.ClientConn.ServeLoop` | proxy/conn.go:75-115 | the loop handles the frames of the client's stream one at a time until one fails or crashes the process; an upstream once there is never replaced |
| `Invariant.ServeKeeps` | proxy/conn.go:75-138 | one request, of any bytes, in any state, keeps the trace safe and the state in agreement with it, moves the state only forward, dials nothing where there is an upstream, and is answered exactly when it does not end the connection |
| `Runs.RunIsGood` | proxy/conn.go:75-115 | every run, with catalogue writes interleaved, keeps that invariant |
| `Runs.ConnectionInvariant` | proxy/conn.go:47-57 | in every run: a mechanism exactly after the handshake; no upstream before the first authentication message, one in relay and for SCRAM; at most two rounds, two exactly for an authenticated SCRAM client; no password for SCRAM; a prefix once bound |
| `Runs.ScramNeverDialsLate` | proxy/conn.go:204-240 | an authenticated SCRAM client's requests never dial |
| `Runs.RunsOnlyAdvance` | proxy/conn.go:29-57 | no later step takes back the phase, the mechanism, the bound tenant and password, or the upstream; and once there is an upstream nothing is ever dialed again |
| `Runs.CatalogueFollowsWrites` | resolver/memory.go:49-75 | in every run, the catalogue is the history of the writes attempted in it |
| `Runs.LookupsFollowWrites` | resolver/memory.go:37-75 | in every run, each lookup answers with the last write about the ID that succeeded before it, or without one with what the catalogue started with; that is the first valid tenant set since the last deletion |
| `Runs.DeletedIsGone` | resolver/memory.go:64-75 | in every run, no lookup finds a deleted ID until a valid tenant is set under it |
| `Runs.CrashesIff` | proxy/conn.go:97-101 | exactly which steps crash the process: another connection's, a frame with such a field, a rewritten request whose reply ends before its own header |
| `Runs.FittingFramesDoNotPanic` | protocol/header.go:59-115 | a frame whose tag lengths fit is never among them by its header |
| `Guarantees.TrafficIsAuthorised` | proxy/conn.go:120-240 | in every run, each forwarded request comes after an accepted handshake, goes to the upstream of the tenant last looked up, over the connection last dialed, on which that broker's verdicts approve the client |
| `Guarantees.VerdictsAreTheBrokers` | upstream/conn.go:349-369 | in every run, each such verdict is the broker's reply to the latest authentication message, on the same connection and while the same request was handled |
| `Guarantees.ScramPayloadsPassThrough` | proxy/conn.go:395-470 | in every run, what a SCRAM client's broker is sent to authenticate is the payload of the request at hand |
| `Guarantees.CredentialsFollowHandshake` | upstream/conn.go:176-197 | in every run, credentials and SCRAM messages go out only on a connection on which that broker answered the handshake with 0 |
| `Guarantees.TrafficIsTheTenants` | proxy/conn.go:143-202 | in every run, what is forwarded is the request at hand: if its key is advertised and its messages name something, rewritten with that tenant's prefix under its own version and client id, and else unchanged but for its id |
| `Guarantees.AnswersAreTheBrokers` | proxy/conn.go:488-510 | in every run, a forwarded request's answer is the broker's reply to the last thing sent for it, rewritten with that tenant's prefix, or unchanged but for its id |
| `Guarantees.PlainCredentialsPassThrough` | proxy/conn.go:361-383 | in every run, the credentials sent upstream for a PLAIN client parse to the username and password of a request it sent; translated, they are the messages of a SCRAM session with those |
| `Guarantees.AnswersTellTheTruth` | proxy/conn.go:280-482 | in every run, each answer to a handshake has code 0 exactly if it was accepted, 34 exactly if an earlier one was, and 33 exactly if none was and the mechanism is not one of the three; to an authentication message, it is the broker's verdict word for word, or without one has code 0 exactly if the client was let in by it, 34 exactly if there was no handshake or the client was in already, and else 58 |
| `Service.RequestsAreServedIff` | proxy/conn.go:120-240 | a request kroxy does not answer itself is answered exactly if the client is authenticated, the broker is reached, dialing first if need be, its next frame is a whole response, request and response rewrite where they name things, and the client can be written to; and with what |
| `Service.ApiVersionsServedIff` | proxy/conn.go:242-278 | ApiVersions is answered in any state and changes nothing |
| `Service.HandshakeServedIff` | proxy/conn.go:280-305 | a handshake is answered with 0 exactly if it is the first and for PLAIN, SCRAM-SHA-256 or SCRAM-SHA-512, and only then changes anything |
| `Service.PlainAdmitsIff` | proxy/conn.go:335-387 | a PLAIN client is admitted exactly by a PLAIN message naming a known tenant, bound to it and told 0; any other message is answered with 58 and changes nothing |
| `Service.ScramRelaysIff` | proxy/conn.go:395-483 | for any payload: a relay starts exactly when it is a well-formed client-first-message whose name is known and whose broker's frames take the dial and the mechanism; the client is bound to that tenant and broker and told its verdict, and else 58 |
| `Service.ScramRoundsIff` | proxy/conn.go:456-482 | a later message is answered with the broker's verdict, whose approval counts, and whose second lets the client in |
| `Service.UnreadableEnds` | proxy/conn.go:97-100 | a frame without a header and an authentication message that does not decode end the connection unanswered and change nothing |
| `Service.MisplacedIsRefused` | proxy/conn.go:335-352 | an authentication message before the handshake, or from a client already in, is answered with 34 and changes nothing |
| `Guarantees.OneAnswerEach` | proxy/conn.go:504-510 | in every run, the answers are those to the requests, in order and under their ids; one may be missing, the last, and only when the connection has ended |
| `Guarantees.IdsCount` | upstream/conn.go:202-205 | in every run, a request's upstream id is its number on its connection |
| `Guarantees.IdsDistinctIff` | upstream/conn.go:202-205 | in every run, two requests of a connection share an id exactly when a multiple of 2^32 separates them |
| `Runs.RejectedReplyEndsIff` | upstream/conn.go:234-244 | in every run, a reply that is missing, short or under another id ends the connection unless it came in the dial for a SCRAM client's first message and the client could be told; exactly then it does not, and nothing but the tenant looked up has changed |
| `Witnesses.RejectedReplySurvives` | proxy/conn.go:440-450 | such a run |
| `Witnesses.ShortReplyCrashes` | upstream/conn.go:280-284 | a run, of a handshake, credentials and a Fetch, that crashes by a reply of four bytes |
| `Witnesses.UnadvertisedGoesRaw` | proxy/conn.go:120-138 | a run in which a request that names topics goes out as it came |
| `Runs.ServeLoopIsRun` | proxy/conn.go:75-115 | the serve loop is such a run, of the frames its client's bytes hold |
| `EndToEnd.ConnectionsAreRuns` | proxy/conn.go:75-115 | each of any number of connections in one process is such a run, whatever the others do |
| `Traffic.ServeShips` | proxy/conn.go:120-202 | a request of an authenticated client that names records, rewrites and reaches the broker is sent once, rewritten, and nothing else that names records is; it is answered exactly if the broker's frame is a whole response that rewrites and the client can be written to, and with that |
| `EndToEnd.CallsAreARun` | proxy/rewrite.go:30-141 | the requests of all connections that a broker carries out are one run of the shared cluster, and every answer to one is that run's, in the client's bytes |
| `EndToEnd.CallIff` | proxy/rewrite.go:30-141 | which requests those are: exactly those of authenticated clients that name records, can be read and reach the broker, and that the broker carries out |
| `EndToEnd.AnswersAreCalls` | proxy/rewrite.go:30-141 | no request that names records is answered without having been carried out |
| `EndToEnd.TenantsSeeDedicatedClusters` | README.md:10-11 | whatever any number of clients send on any connections, while tenants come and go, a tenant's clients are told of just those requests that name records for which the broker's frame came and the client could be written to, and all they are told is what a cluster of its own, fed their requests only, would tell; such a cluster is what it leaves |

## Left out

- TCP, TLS, deadlines, timeouts, the accept loop and shutdown (proxy/listener.go): input, output and time.
- The kmsg codec and the SCRAM cryptography: unseen libraries, any functions here; the consumer-group and end-to-end theorems assume that what the codec encodes it decodes to itself, for the messages it decodes, their renamings and the broker's responses.
- EndToEnd.TenantsSeeDedicatedClusters: requests of keys other than those the broker's records have, among them the group membership and transaction requests, are taken to leave those records as they are; the broker carries out one request at a time.
- FindCoordinator, DescribeGroups, Heartbeat, LeaveGroup, InitProducerID and the transaction rewriters: loops of the kind already modelled.
- Keys the proxy does not know and fields the rewriters do not visit: forwarded as they are, so no claim is made about names in them. What the messages of each key name is taken from the protocol.
- Upstream.Conn.RoundTripRequest: a reply's header tags are taken to be empty, as the source takes them; the bytes of the request's own header are the codec's.
- Rewriters.MetadataResponse.RewriteOut: the arrays inside a partition are values, so sharing between them is not modelled.
- Isolation.DedicatedClusterRefinement: a tenant's groups must start out holding offsets for its own topics only, as they do in an empty cluster and after any run in which its own requests are well named; node ids, which the proxy hides, are compared after collapsing.
- Header.ParserIsExact: for frames up to the limit ReadFrame enforces.
- The tables of flexible versions and advertised version ranges are taken as given; whether they match Kafka's message schemas is not considered.
- Resolver.List, the admin server and client, configuration, logging, metrics and debug strings.
- Locking: each resolver operation is one step.
- Other connections: a run of `Runs` follows one; the others share the catalogue and the process with it, and so appear as catalogue writes and as crashes.
