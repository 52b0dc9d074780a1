/** The blobs consumer-group members exchange through the broker: rewritten on the
    way up and on the way down, by rewrite/groups.go. The blob codec is not part of
    this model; it is any decoder and encoder with decode(encode(m)) == m for the messages
    the decoder gives and their renamings. */
module ConsumerGroups {
  import opened Bytes
  import opened Prefix
  import opened Rewriters

  /** What a member subscribes to. `rest` is the version, user data and the like. */
  datatype Subscription = Subscription(topics: seq<Bytes>, owned: seq<Entry>, rest: Bytes)
  datatype Assignment = Assignment(topics: seq<Entry>, rest: Bytes)

  datatype Codec<!M> = Codec(decode: Bytes -> Option<M>, encode: M -> Bytes)

  /** A message that, encoded, decodes to itself, and is not empty. */
  predicate Kept<M(==)>(codec: Codec<M>, m: M) {
    codec.encode(m) != [] && codec.decode(codec.encode(m)) == Some(m)
  }

  /** So is every message that is decoded, and what prefixing and stripping make of it. */
  ghost predicate Lawful<M>(codec: Codec<M>, rename: (Bytes -> Bytes) -> M -> M) {
    forall blob, prefix | codec.decode(blob).Some? ::
      var m := codec.decode(blob).value;
      Kept(codec, m) && Kept(codec, rename(Adding(prefix))(m)) && Kept(codec, rename(Dropping(prefix))(m))
  }

  lemma LawAt<M>(codec: Codec<M>, rename: (Bytes -> Bytes) -> M -> M, blob: Bytes, prefix: Bytes)
    requires Lawful(codec, rename) && codec.decode(blob).Some?
    ensures var m := codec.decode(blob).value;
            Kept(codec, m) && Kept(codec, rename(Adding(prefix))(m)) && Kept(codec, rename(Dropping(prefix))(m))
  {
    hide Kept;
  }

  /** Decode, change, encode; a blob that does not decode is left alone. */
  function Rewrite<M>(codec: Codec<M>, change: M -> M, blob: Bytes): Bytes {
    if blob == [] then blob
    else match codec.decode(blob)
         case None => blob
         case Some(m) => codec.encode(change(m))
  }

  function Renamed(f: Bytes -> Bytes, names: seq<Bytes>): seq<Bytes> {
    seq(|names|, i requires 0 <= i < |names| => f(names[i]))
  }

  function RenamedEntries(f: Bytes -> Bytes, es: seq<Entry>): seq<Entry> {
    seq(|es|, i requires 0 <= i < |es| => es[i].(name := f(es[i].name)))
  }

  function RenameSubscription(f: Bytes -> Bytes): Subscription -> Subscription {
    (m: Subscription) => Subscription(Renamed(f, m.topics), RenamedEntries(f, m.owned), m.rest)
  }

  function RenameAssignment(f: Bytes -> Bytes): Assignment -> Assignment {
    (a: Assignment) => Assignment(RenamedEntries(f, a.topics), a.rest)
  }

  function Adding(prefix: Bytes): Bytes -> Bytes { (n: Bytes) => PrefixIn(prefix, n) }
  function Dropping(prefix: Bytes): Bytes -> Bytes { (n: Bytes) => StripOut(prefix, n) }

  // --------------------------------------------------------- The rewriting loops

  method RewriteConsumerSubscription(codec: Codec<Subscription>, blob: Bytes, f: Bytes -> Bytes) returns (out: Bytes)
    ensures out == Rewrite(codec, RenameSubscription(f), blob)
  {
    if |blob| == 0 {
      return blob;
    }
    var decoded := codec.decode(blob);
    if decoded.None? {
      return blob;
    }
    var m := decoded.value;
    var topics := m.topics;
    for i := 0 to |topics|
      invariant |topics| == |m.topics|
      invariant forall k | 0 <= k < i :: topics[k] == f(m.topics[k])
      invariant forall k | i <= k < |topics| :: topics[k] == m.topics[k]
    {
      topics := topics[i := f(topics[i])];
    }
    var owned := m.owned;
    for i := 0 to |owned|
      invariant |owned| == |m.owned|
      invariant forall k | 0 <= k < i :: owned[k] == m.owned[k].(name := f(m.owned[k].name))
      invariant forall k | i <= k < |owned| :: owned[k] == m.owned[k]
    {
      owned := owned[i := owned[i].(name := f(owned[i].name))];
    }
    assert Subscription(topics, owned, m.rest) == RenameSubscription(f)(m);
    out := codec.encode(Subscription(topics, owned, m.rest));
  }

  method RewriteConsumerAssignment(codec: Codec<Assignment>, blob: Bytes, f: Bytes -> Bytes) returns (out: Bytes)
    ensures out == Rewrite(codec, RenameAssignment(f), blob)
  {
    if |blob| == 0 {
      return blob;
    }
    var decoded := codec.decode(blob);
    if decoded.None? {
      return blob;
    }
    var a := decoded.value;
    var topics := a.topics;
    for i := 0 to |topics|
      invariant |topics| == |a.topics|
      invariant forall k | 0 <= k < i :: topics[k] == a.topics[k].(name := f(a.topics[k].name))
      invariant forall k | i <= k < |topics| :: topics[k] == a.topics[k]
    {
      topics := topics[i := topics[i].(name := f(topics[i].name))];
    }
    assert Assignment(topics, a.rest) == RenameAssignment(f)(a);
    out := codec.encode(Assignment(topics, a.rest));
  }

  // ------------------------------------------------------------ One blob there and back

  lemma DroppingUndoesAdding(prefix: Bytes, m: Subscription, a: Assignment)
    ensures RenameSubscription(Dropping(prefix))(RenameSubscription(Adding(prefix))(m)) == m
    ensures RenameAssignment(Dropping(prefix))(RenameAssignment(Adding(prefix))(a)) == a
  {
    forall n ensures Dropping(prefix)(Adding(prefix)(n)) == n { StripUndoesPrefix(prefix, n); }
    assert Renamed(Dropping(prefix), Renamed(Adding(prefix), m.topics)) == m.topics;
    RenamingEntriesBack(prefix, m.owned);
    RenamingEntriesBack(prefix, a.topics);
  }

  lemma RenamingEntriesBack(prefix: Bytes, es: seq<Entry>)
    ensures RenamedEntries(Dropping(prefix), RenamedEntries(Adding(prefix), es)) == es
  {
    var up := RenamedEntries(Adding(prefix), es);
    forall i | 0 <= i < |es| ensures RenamedEntries(Dropping(prefix), up)[i] == es[i] {
      StripUndoesPrefix(prefix, es[i].name);
      assert up[i].name == PrefixIn(prefix, es[i].name);
    }
  }

  /** The same message, or the same bytes where there is no message in them. */
  predicate SameBlob<M(==)>(codec: Codec<M>, got: Bytes, sent: Bytes) {
    && codec.decode(got) == codec.decode(sent)
    && (sent == [] || codec.decode(sent) == None ==> got == sent)
  }

  lemma ThereAndBack<M>(codec: Codec<M>, up: M -> M, down: M -> M, blob: Bytes)
    requires var d := codec.decode(blob);
             d.Some? ==> Kept(codec, d.value) && Kept(codec, up(d.value)) && down(up(d.value)) == d.value
    ensures SameBlob(codec, Rewrite(codec, down, Rewrite(codec, up, blob)), blob)
  {}

  /** A blob goes through one rewriting untouched exactly when it is empty, or does
      not decode, or is what the encoder writes for a message the change leaves alone. */
  lemma UntouchedIff<M>(codec: Codec<M>, change: M -> M, blob: Bytes)
    requires codec.decode(blob).Some? ==> Kept(codec, change(codec.decode(blob).value))
    ensures Rewrite(codec, change, blob) == blob
            <==> blob == [] || codec.decode(blob).None?
                 || (change(codec.decode(blob).value) == codec.decode(blob).value
                     && codec.encode(codec.decode(blob).value) == blob)
  {}

  predicate NoneOwn(prefix: Bytes, m: Subscription) {
    && (forall i | 0 <= i < |m.topics| :: !BelongsToTenant(prefix, m.topics[i]))
    && EntriesForeign(prefix, m.owned)
  }

  predicate EntriesForeign(prefix: Bytes, es: seq<Entry>) {
    forall i | 0 <= i < |es| :: !BelongsToTenant(prefix, es[i].name)
  }

  predicate EntriesNameless(es: seq<Entry>) {
    forall i | 0 <= i < |es| :: es[i].name == []
  }

  /** Renaming leaves a list alone exactly when stripping finds no prefix in it, and
      prefixing no name. */
  lemma EntriesFixedIff(prefix: Bytes, es: seq<Entry>)
    requires prefix != []
    ensures RenamedEntries(Dropping(prefix), es) == es <==> EntriesForeign(prefix, es)
    ensures RenamedEntries(Adding(prefix), es) == es <==> EntriesNameless(es)
  {
    var d, a := RenamedEntries(Dropping(prefix), es), RenamedEntries(Adding(prefix), es);
    if !EntriesForeign(prefix, es) {
      var i :| 0 <= i < |es| && BelongsToTenant(prefix, es[i].name);
      assert |d[i].name| < |es[i].name|;
    }
    if !EntriesNameless(es) {
      var i :| 0 <= i < |es| && es[i].name != [];
      assert |a[i].name| > |es[i].name|;
    }
    assert EntriesForeign(prefix, es) ==> d == es;
    assert EntriesNameless(es) ==> a == es;
  }

  /** Stripping leaves a subscription alone exactly when no topic carries the prefix. */
  lemma DroppingFixesIff(prefix: Bytes, m: Subscription)
    requires prefix != []
    ensures RenameSubscription(Dropping(prefix))(m) == m <==> NoneOwn(prefix, m)
  {
    var d := RenameSubscription(Dropping(prefix))(m);
    EntriesFixedIff(prefix, m.owned);
    if i :| 0 <= i < |m.topics| && BelongsToTenant(prefix, m.topics[i]) {
      assert |d.topics[i]| < |m.topics[i]|;
    } else {
      assert d.topics == m.topics;
    }
  }

  // --------------------------------------------------------------- JoinGroup

  function ConsumerType(): Bytes { Ascii("consumer") }

  datatype Protocol = Protocol(name: Bytes, metadata: Bytes)
  datatype Join = Join(group: Bytes, member: Bytes, protocolType: Bytes, protocols: seq<Protocol>)
  datatype Member = Member(id: Bytes, blob: Bytes)

  /** The answer to the leader. Versions before 7 carry no protocol type. */
  datatype Joined = Joined(protocolType: Option<Bytes>, members: seq<Member>)

  function JoinGroupRequestIn(codec: Codec<Subscription>, prefix: Bytes, r: Join): Join {
    var prefixed := r.(group := PrefixIn(prefix, r.group));
    if prefix == [] || r.protocolType != ConsumerType() then prefixed
    else prefixed.(protocols := seq(|r.protocols|, i requires 0 <= i < |r.protocols| =>
        r.protocols[i].(metadata := Rewrite(codec, RenameSubscription(Adding(prefix)), r.protocols[i].metadata))))
  }

  function JoinGroupResponseOut(codec: Codec<Subscription>, prefix: Bytes, r: Joined): Joined {
    if prefix == [] || (r.protocolType.Some? && r.protocolType.value != ConsumerType()) then r
    else r.(members := seq(|r.members|, i requires 0 <= i < |r.members| =>
        r.members[i].(blob := Rewrite(codec, RenameSubscription(Dropping(prefix)), r.members[i].blob))))
  }

  /** `chosen[i]` is where member i lists the protocol the broker chose. */
  predicate Offer(joins: seq<Join>, chosen: seq<nat>) {
    |chosen| == |joins| && forall i | 0 <= i < |joins| :: chosen[i] < |joins[i].protocols|
  }

  /** The broker tells the leader what each member offered for the chosen protocol. */
  function BrokerJoin(joins: seq<Join>, chosen: seq<nat>, protocolType: Option<Bytes>): Joined
    requires Offer(joins, chosen)
  {
    Joined(protocolType,
           seq(|joins|, i requires 0 <= i < |joins| =>
             Member(joins[i].member, joins[i].protocols[chosen[i]].metadata)))
  }

  function JoinsIn(codec: Codec<Subscription>, prefix: Bytes, joins: seq<Join>): (r: seq<Join>)
    ensures |r| == |joins|
    ensures forall i | 0 <= i < |r| :: |r[i].protocols| == |joins[i].protocols|
  {
    seq(|joins|, i requires 0 <= i < |joins| => JoinGroupRequestIn(codec, prefix, joins[i]))
  }

  /** What the leader reads of member i, against what member i submitted. In a
      consumer group it is the same subscription. In any other group it is the same
      bytes if the answer names the protocol type; if it does not, exactly when the
      blob would not pass for a subscription of one of the tenant's topics. */
  lemma JoinGroupRoundTrip(codec: Codec<Subscription>, prefix: Bytes, joins: seq<Join>, chosen: seq<nat>,
                           protocolType: Bytes, echoed: bool, i: nat)
    requires Lawful(codec, RenameSubscription) && i < |joins|
    requires Offer(joins, chosen)
    requires forall k | 0 <= k < |joins| :: joins[k].protocolType == protocolType
    ensures var up := BrokerJoin(JoinsIn(codec, prefix, joins), chosen, if echoed then Some(protocolType) else None);
            var down := JoinGroupResponseOut(codec, prefix, up);
            var sent := joins[i].protocols[chosen[i]].metadata;
            && |down.members| == |joins|
            && down.members[i].id == joins[i].member
            && (protocolType == ConsumerType() ==> SameBlob(codec, down.members[i].blob, sent))
            && (protocolType != ConsumerType() && echoed ==> down.members[i].blob == sent)
            && (protocolType != ConsumerType() && !echoed && prefix != [] ==>
                (down.members[i].blob == sent <==>
                 || sent == []
                 || codec.decode(sent).None?
                 || (codec.encode(codec.decode(sent).value) == sent && NoneOwn(prefix, codec.decode(sent).value))))
  {
    hide Lawful;
    var sent := joins[i].protocols[chosen[i]].metadata;
    if codec.decode(sent).Some? {
      LawAt(codec, RenameSubscription, sent, prefix);
    }
    var add, drop := RenameSubscription(Adding(prefix)), RenameSubscription(Dropping(prefix));
    if protocolType == ConsumerType() {
      if codec.decode(sent).Some? {
        DroppingUndoesAdding(prefix, codec.decode(sent).value, Assignment([], []));
      }
      ThereAndBack(codec, add, drop, sent);
    } else if !echoed && prefix != [] {
      UntouchedIff(codec, drop, sent);
      if codec.decode(sent).Some? {
        DroppingFixesIff(prefix, codec.decode(sent).value);
      }
    }
  }

  // --------------------------------------------------------------- SyncGroup

  /** The leader's assignments. Versions before 5 carry no protocol type. */
  datatype Sync = Sync(group: Bytes, protocolType: Option<Bytes>, assignments: seq<Member>)
  datatype Synced = Synced(protocolType: Option<Bytes>, assignment: Bytes)

  function SyncGroupRequestIn(codec: Codec<Assignment>, prefix: Bytes, r: Sync): Sync {
    var prefixed := r.(group := PrefixIn(prefix, r.group));
    if prefix == [] || (r.protocolType.Some? && r.protocolType.value != ConsumerType()) then prefixed
    else prefixed.(assignments := seq(|r.assignments|, i requires 0 <= i < |r.assignments| =>
        r.assignments[i].(blob := Rewrite(codec, RenameAssignment(Adding(prefix)), r.assignments[i].blob))))
  }

  function SyncGroupResponseOut(codec: Codec<Assignment>, prefix: Bytes, r: Synced): Synced {
    if prefix == [] || (r.protocolType.Some? && r.protocolType.value != ConsumerType()) then r
    else r.(assignment := Rewrite(codec, RenameAssignment(Dropping(prefix)), r.assignment))
  }

  /** The broker hands each member its assignment. */
  function BrokerSync(r: Sync, i: nat, protocolType: Option<Bytes>): Synced
    requires i < |r.assignments|
  {
    Synced(protocolType, r.assignments[i].blob)
  }

  /** The protocol type a message of a group carries, if its version has the field. */
  function Carried(protocolType: Bytes, carried: bool): Option<Bytes> {
    if carried then Some(protocolType) else None
  }

  /** The blob would be written by the codec just so. */
  predicate Canonical(codec: Codec<Assignment>, blob: Bytes)
    requires codec.decode(blob).Some?
  {
    codec.encode(codec.decode(blob).value) == blob
  }

  /** Which blobs of a group that is not a consumer group survive, by whether the
      leader's request and the member's answer name the group's type. */
  predicate Survives(codec: Codec<Assignment>, prefix: Bytes, asked: bool, answered: bool, blob: Bytes) {
    || (asked && answered) || prefix == [] || blob == [] || codec.decode(blob).None?
    || (&& Canonical(codec, blob)
        && (asked ==> EntriesForeign(prefix, codec.decode(blob).value.topics))
        && (answered ==> EntriesNameless(codec.decode(blob).value.topics)))
  }

  /** What member i reads, against what the leader assigned it, for every mix of
      versions that name the group's type and versions that do not. In a consumer group
      it is the same assignment. In any other group it is the same bytes exactly when the
      blob survives. */
  lemma SyncGroupRoundTrip(codec: Codec<Assignment>, prefix: Bytes, protocolType: Bytes, asked: bool, answered: bool,
                           r: Sync, i: nat)
    requires Lawful(codec, RenameAssignment) && i < |r.assignments| && r.protocolType == Carried(protocolType, asked)
    ensures var up := BrokerSync(SyncGroupRequestIn(codec, prefix, r), i, Carried(protocolType, answered));
            var got := SyncGroupResponseOut(codec, prefix, up).assignment;
            var sent := r.assignments[i].blob;
            && (protocolType == ConsumerType() ==> SameBlob(codec, got, sent))
            && (protocolType != ConsumerType() ==> (got == sent <==> Survives(codec, prefix, asked, answered, sent)))
  {
    hide Lawful;
    var sent := r.assignments[i].blob;
    var add, drop := RenameAssignment(Adding(prefix)), RenameAssignment(Dropping(prefix));
    if codec.decode(sent).Some? {
      LawAt(codec, RenameAssignment, sent, prefix);
      DroppingUndoesAdding(prefix, Subscription([], [], []), codec.decode(sent).value);
      ThereAndBack(codec, add, drop, sent);
      if prefix != [] {
        EntriesFixedIff(prefix, codec.decode(sent).value.topics);
      }
      UntouchedIff(codec, add, sent);
      UntouchedIff(codec, drop, sent);
    }
  }

  // ------------------------------------------------------------- Groups kept apart

  /** Tenants with incomparable prefixes join and sync different groups, unless both leave
      the group's name empty. */
  lemma GroupsApartIff(subscriptions: Codec<Subscription>, assignments: Codec<Assignment>, p: Bytes, q: Bytes,
                       j: Join, k: Join, s: Sync, u: Sync)
    requires Incomparable(p, q)
    ensures JoinGroupRequestIn(subscriptions, p, j).group == JoinGroupRequestIn(subscriptions, q, k).group
            <==> j.group == [] && k.group == []
    ensures SyncGroupRequestIn(assignments, p, s).group == SyncGroupRequestIn(assignments, q, u).group
            <==> s.group == [] && u.group == []
  {
    SharedNameIff(p, q, j.group, k.group);
    SharedNameIff(p, q, s.group, u.group);
  }

  // ------------------------------------------------------------- Blobs that change

  lemma StripsName(prefix: Bytes, topic: Bytes)
    ensures Dropping(prefix)(prefix + topic) == topic
  {
    assert (prefix + topic)[|prefix|..] == topic;
  }

  /** A group that is not a consumer group, a member with one blob, and an answer to the
      leader that does not name the type: a blob that passes for the subscription to a
      topic with the tenant's prefix arrives stripped. */
  lemma UnnamedJoinStrips(codec: Codec<Subscription>, prefix: Bytes, protocolType: Bytes, topic: Bytes, rest: Bytes,
                          sent: Bytes)
    requires Lawful(codec, RenameSubscription) && prefix != [] && protocolType != ConsumerType()
    requires sent != [] && codec.decode(sent) == Some(Subscription([prefix + topic], [], rest))
    ensures var joins := [Join([], [], protocolType, [Protocol([], sent)])];
            var up := BrokerJoin(JoinsIn(codec, prefix, joins), [0], None);
            var got := JoinGroupResponseOut(codec, prefix, up).members[0].blob;
            got != sent && codec.decode(got) == Some(Subscription([topic], [], rest))
  {
    hide Lawful;
    LawAt(codec, RenameSubscription, sent, prefix);
    var m := Subscription([prefix + topic], [], rest);
    StripsName(prefix, topic);
    assert RenameSubscription(Dropping(prefix))(m) == Subscription([topic], [], rest);
    assert |m.topics[0]| > |topic|;
  }

  /** The same for SyncGroup, where the leader's request names the type and the member's
      answer does not. */
  lemma UnnamedAnswerStrips(codec: Codec<Assignment>, prefix: Bytes, protocolType: Bytes, topic: Bytes, rest: Bytes,
                            sent: Bytes)
    requires Lawful(codec, RenameAssignment) && prefix != [] && protocolType != ConsumerType()
    requires sent != [] && codec.decode(sent) == Some(Assignment([Entry(prefix + topic, [])], rest))
    ensures var r := Sync([], Some(protocolType), [Member([], sent)]);
            var up := BrokerSync(SyncGroupRequestIn(codec, prefix, r), 0, None);
            var got := SyncGroupResponseOut(codec, prefix, up).assignment;
            got != sent && codec.decode(got) == Some(Assignment([Entry(topic, [])], rest))
  {
    hide Lawful;
    LawAt(codec, RenameAssignment, sent, prefix);
    var a := Assignment([Entry(prefix + topic, [])], rest);
    StripsName(prefix, topic);
    assert RenameAssignment(Dropping(prefix))(a) == Assignment([Entry(topic, [])], rest);
    assert |a.topics[0].name| > |topic|;
  }
}
