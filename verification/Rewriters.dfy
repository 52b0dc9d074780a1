/** The per-API rewriters of rewrite/: what each one does to a whole message, as
    functions on values, and the loops that do it in place. A message keeps the
    fields the rewriters visit; every other field is part of `payload`. */
module Rewriters {
  import opened Bytes
  import opened Prefix

  // ---------------------------------------------------------------- Messages

  /** One named element of a request or response list. */
  datatype Entry = Entry(name: Bytes, payload: Bytes)

  /** One group of an OffsetFetch message in its per-group form. The request's
      topic list is nullable; null asks for every topic of the group. */
  datatype GroupTopics = GroupTopics(group: Bytes, topics: Option<seq<Entry>>)

  datatype Resource = Resource(kind: int, name: Bytes, payload: Bytes)

  datatype Partition = Partition(
    leader: int, replicas: seq<int>, isr: seq<int>, offline: seq<int>, payload: Bytes)
  datatype MetadataTopic = MetadataTopic(name: Option<Bytes>, partitions: seq<Partition>, payload: Bytes)
  datatype Node = Node(id: int, host: Bytes, port: int, rack: Option<Bytes>)
  datatype Metadata = Metadata(brokers: seq<Node>, controller: int, topics: seq<MetadataTopic>)

  const TOPIC_RESOURCE := 2
  const GROUP_RESOURCE := 32

  // ----------------------------------------------------- Rewriters on values

  function PrefixEntry(prefix: Bytes, e: Entry): Entry { e.(name := PrefixIn(prefix, e.name)) }
  function StripEntry(prefix: Bytes, e: Entry): Entry { e.(name := StripOut(prefix, e.name)) }

  /** CreateTopics, DeleteTopics, Produce, Fetch, ListOffsets, OffsetCommit,
      OffsetDelete and DeleteGroups rewrite their name lists this way. */
  function PrefixEntries(prefix: Bytes, es: seq<Entry>): seq<Entry> {
    seq(|es|, i requires 0 <= i < |es| => PrefixEntry(prefix, es[i]))
  }

  function StripEntries(prefix: Bytes, es: seq<Entry>): seq<Entry> {
    seq(|es|, i requires 0 <= i < |es| => StripEntry(prefix, es[i]))
  }

  function PrefixGroup(prefix: Bytes, g: GroupTopics): GroupTopics {
    GroupTopics(PrefixIn(prefix, g.group),
                if g.topics == None then None else Some(PrefixEntries(prefix, g.topics.value)))
  }

  function PrefixGroups(prefix: Bytes, gs: seq<GroupTopics>): seq<GroupTopics> {
    seq(|gs|, i requires 0 <= i < |gs| => PrefixGroup(prefix, gs[i]))
  }

  function StripGroup(prefix: Bytes, g: GroupTopics): GroupTopics {
    GroupTopics(StripOut(prefix, g.group),
                if g.topics == None then None else Some(StripEntries(prefix, g.topics.value)))
  }

  function StripGroups(prefix: Bytes, gs: seq<GroupTopics>): seq<GroupTopics> {
    seq(|gs|, i requires 0 <= i < |gs| => StripGroup(prefix, gs[i]))
  }

  function Filter<T>(keep: T -> bool, s: seq<T>): seq<T> {
    if s == [] then []
    else if keep(s[0]) then [s[0]] + Filter(keep, s[1..])
    else Filter(keep, s[1..])
  }

  function OwnsEntry(prefix: Bytes): Entry -> bool {
    (e: Entry) => BelongsToTenant(prefix, e.name)
  }

  /** ListGroups: keep the tenant's groups, in order, and strip them. */
  function ListGroupsOut(prefix: Bytes, groups: seq<Entry>): seq<Entry> {
    StripEntries(prefix, Filter(OwnsEntry(prefix), groups))
  }

  predicate IsNamed(r: Resource) { r.kind == TOPIC_RESOURCE || r.kind == GROUP_RESOURCE }

  function KeepsResource(prefix: Bytes): Resource -> bool {
    (r: Resource) => IsNamed(r) ==> BelongsToTenant(prefix, r.name)
  }

  function StripResource(prefix: Bytes, r: Resource): Resource {
    if IsNamed(r) then r.(name := StripOut(prefix, r.name)) else r
  }

  function StripResources(prefix: Bytes, rs: seq<Resource>): seq<Resource> {
    seq(|rs|, i requires 0 <= i < |rs| => StripResource(prefix, rs[i]))
  }

  function PrefixResource(prefix: Bytes, r: Resource): Resource {
    if IsNamed(r) then r.(name := PrefixIn(prefix, r.name)) else r
  }

  /** DescribeConfigs requests: topics and groups are prefixed, every other kind of
      resource is sent as it is. */
  function DescribeConfigsIn(prefix: Bytes, rs: seq<Resource>): seq<Resource> {
    seq(|rs|, i requires 0 <= i < |rs| => PrefixResource(prefix, rs[i]))
  }

  /** DescribeConfigs responses: topics and groups are filtered and stripped, every other
      kind of resource is kept as it is. */
  function DescribeConfigsOut(prefix: Bytes, rs: seq<Resource>): seq<Resource> {
    StripResources(prefix, Filter(KeepsResource(prefix), rs))
  }

  function Zeros(ids: seq<int>): seq<int> { seq(|ids|, _ => 0) }

  function CollapsePartition(p: Partition): Partition {
    Partition(0, Zeros(p.replicas), Zeros(p.isr), Zeros(p.offline), p.payload)
  }

  function CollapsePartitions(ps: seq<Partition>): seq<Partition> {
    seq(|ps|, i requires 0 <= i < |ps| => CollapsePartition(ps[i]))
  }

  function OwnsTopic(prefix: Bytes): MetadataTopic -> bool {
    (t: MetadataTopic) => t.name != None && BelongsToTenant(prefix, t.name.value)
  }

  function RewriteTopic(prefix: Bytes, t: MetadataTopic): MetadataTopic {
    MetadataTopic(StripOutPtr(prefix, t.name), CollapsePartitions(t.partitions), t.payload)
  }

  function RewriteTopics(prefix: Bytes, ts: seq<MetadataTopic>): seq<MetadataTopic> {
    seq(|ts|, i requires 0 <= i < |ts| => RewriteTopic(prefix, ts[i]))
  }

  function VirtualBroker(host: Bytes, port: int, brokers: seq<Node>): Node {
    Node(0, host, port, if brokers == [] then None else brokers[0].rack)
  }

  /** Metadata: one virtual broker, and the tenant's topics with their prefix
      stripped and every node id set to that broker's. */
  function MetadataOut(prefix: Bytes, host: Bytes, port: int, m: Metadata): Metadata {
    Metadata([VirtualBroker(host, port, m.brokers)], 0, RewriteTopics(prefix, Filter(OwnsTopic(prefix), m.topics)))
  }

  // ------------------------------------------------------------- About them

  lemma {:induction false} FilterAppend<T>(keep: T -> bool, a: seq<T>, b: seq<T>)
    ensures Filter(keep, a + b) == Filter(keep, a) + Filter(keep, b)
  {
    if a == [] {
      assert a + b == b;
    } else {
      assert (a + b)[1..] == a[1..] + b;
      FilterAppend(keep, a[1..], b);
      var x, y := Filter(keep, a[1..]), Filter(keep, b);
      assert [a[0]] + (x + y) == ([a[0]] + x) + y;
    }
  }

  /** One step of a loop that filters the first `i + 1` elements. */
  lemma FilterSnoc<T>(keep: T -> bool, s: seq<T>, i: nat)
    requires i < |s|
    ensures Filter(keep, s[..i + 1]) == Filter(keep, s[..i]) + (if keep(s[i]) then [s[i]] else [])
  {
    assert s[..i + 1] == s[..i] + [s[i]];
    FilterAppend(keep, s[..i], [s[i]]);
    assert Filter(keep, [s[i]]) == (if keep(s[i]) then [s[i]] else []);
  }

  /** Whatever was sent through `PrefixEntries` and echoed comes back unchanged. */
  lemma StripUndoesPrefixEntries(prefix: Bytes, es: seq<Entry>)
    ensures StripEntries(prefix, PrefixEntries(prefix, es)) == es
  {
    forall i | 0 <= i < |es| ensures StripEntries(prefix, PrefixEntries(prefix, es))[i] == es[i] {
      StripUndoesPrefix(prefix, es[i].name);
    }
  }

  predicate NamesBroker(m: Metadata, id: int) {
    exists i :: 0 <= i < |m.brokers| && m.brokers[i].id == id
  }

  predicate AllNameBrokers(m: Metadata, ids: seq<int>) {
    forall k | 0 <= k < |ids| :: NamesBroker(m, ids[k])
  }

  predicate PartitionClosed(m: Metadata, p: Partition) {
    && NamesBroker(m, p.leader)
    && AllNameBrokers(m, p.replicas)
    && AllNameBrokers(m, p.isr)
    && AllNameBrokers(m, p.offline)
  }

  predicate TopicClosed(m: Metadata, t: MetadataTopic) {
    forall j | 0 <= j < |t.partitions| :: PartitionClosed(m, t.partitions[j])
  }

  /** Same partitions, in the same order, with replica lists of the same lengths. */
  predicate SameShape(t: MetadataTopic, u: MetadataTopic) {
    && |t.partitions| == |u.partitions|
    && t.payload == u.payload
    && forall j | 0 <= j < |t.partitions| ::
         && t.partitions[j].payload == u.partitions[j].payload
         && |t.partitions[j].replicas| == |u.partitions[j].replicas|
         && |t.partitions[j].isr| == |u.partitions[j].isr|
         && |t.partitions[j].offline| == |u.partitions[j].offline|
  }

  /** A rewritten Metadata response has one broker, at the address kroxy advertises. It is
      closed: every node id in it, whatever the broker answered, names a broker of its own
      list; and the topics it keeps are the tenant's, in order, with their shape intact. */
  lemma MetadataReferentialClosure(prefix: Bytes, host: Bytes, port: int, m: Metadata)
    ensures var out := MetadataOut(prefix, host, port, m);
            var own := Filter(OwnsTopic(prefix), m.topics);
            && out.brokers == [Node(0, host, port, if m.brokers == [] then None else m.brokers[0].rack)]
            && NamesBroker(out, out.controller)
            && |out.topics| == |own|
            && forall i | 0 <= i < |own| :: TopicClosed(out, out.topics[i]) && SameShape(out.topics[i], own[i])
  {
    var out := MetadataOut(prefix, host, port, m);
    assert out.brokers[0].id == 0;
    assert NamesBroker(out, 0);
  }

  /** Whatever the broker answers, every resource a tenant is told of is one of the answer:
      a topic or group that carries the tenant's prefix, without it, or another kind as it
      is. */
  lemma {:induction false} DescribeConfigsSound(p: Bytes, rs: seq<Resource>, i: nat) returns (j: nat)
    requires i < |DescribeConfigsOut(p, rs)|
    ensures j < |rs|
    ensures var got := DescribeConfigsOut(p, rs)[i];
            if got.kind == 2 || got.kind == 32 then rs[j] == got.(name := p + got.name) else rs[j] == got
    decreases |rs|
  {
    var rest := Filter(KeepsResource(p), rs[1..]);
    if KeepsResource(p)(rs[0]) {
      assert StripResources(p, [rs[0]] + rest) == [StripResource(p, rs[0])] + StripResources(p, rest);
      if i == 0 {
        j := 0;
        assert IsNamed(rs[0]) ==> rs[0].name == p + StripOut(p, rs[0].name);
      } else {
        j := DescribeConfigsSound(p, rs[1..], i - 1);
        j := j + 1;
      }
    } else {
      j := DescribeConfigsSound(p, rs[1..], i);
      j := j + 1;
    }
  }

  /** What a tenant is told of the resources another tenant asks about: topics and groups
      not at all, every other kind as it is. */
  lemma {:induction false} DescribeConfigsForeign(p: Bytes, q: Bytes, rs: seq<Resource>)
    requires Incomparable(p, q)
    ensures DescribeConfigsOut(p, DescribeConfigsIn(q, rs))
            == Filter((r: Resource) => r.kind != 2 && r.kind != 32, rs)
    decreases |rs|
  {
    if rs == [] {
      assert DescribeConfigsIn(q, rs) == [];
    } else {
      DescribeConfigsForeign(p, q, rs[1..]);
      ForeignNameIsNotOwn(p, q, rs[0].name);
      DescribeConfigsCons(p, q, rs);
    }
  }

  /** What it is told of those it asks about itself: each under the name it used, if none
      of the topics and groups is nameless; and only then. */
  lemma {:induction false} DescribeConfigsRoundTripIff(p: Bytes, rs: seq<Resource>)
    requires p != []
    ensures |DescribeConfigsOut(p, DescribeConfigsIn(p, rs))| <= |rs|
    ensures DescribeConfigsOut(p, DescribeConfigsIn(p, rs)) == rs
            <==> forall i | 0 <= i < |rs| :: rs[i].kind == 2 || rs[i].kind == 32 ==> rs[i].name != []
    decreases |rs|
  {
    if rs == [] {
      assert DescribeConfigsIn(p, rs) == [];
    } else {
      var r, rest := rs[0], rs[1..];
      var back := DescribeConfigsOut(p, DescribeConfigsIn(p, rest));
      DescribeConfigsRoundTripIff(p, rest);
      StripUndoesPrefix(p, r.name);
      DescribeConfigsCons(p, p, rs);
      assert rs == [r] + rest;
      assert back == rest <==> [r] + back == [r] + rest by {
        assert ([r] + back)[1..] == back && ([r] + rest)[1..] == rest;
      }
      assert forall i | 1 <= i < |rs| :: rs[i] == rest[i - 1];
    }
  }

  /** One resource of a request, prefixed by q and seen by p, and the others. */
  lemma DescribeConfigsCons(p: Bytes, q: Bytes, rs: seq<Resource>)
    requires rs != []
    ensures var r := PrefixResource(q, rs[0]);
            DescribeConfigsOut(p, DescribeConfigsIn(q, rs))
            == (if KeepsResource(p)(r) then [StripResource(p, r)] else [])
               + DescribeConfigsOut(p, DescribeConfigsIn(q, rs[1..]))
  {
    var sent := DescribeConfigsIn(q, rs);
    assert sent[0] == PrefixResource(q, rs[0]) && sent[1..] == DescribeConfigsIn(q, rs[1..]);
    var kept := Filter(KeepsResource(p), sent[1..]);
    assert StripResources(p, [sent[0]] + kept) == [StripResource(p, sent[0])] + StripResources(p, kept);
  }

  // -------------------------------------------------------- In-place rewriting

  /** The loop shared by the request rewriters: names are overwritten in place. */
  method PrefixEntriesInPlace(prefix: Bytes, es: array<Entry>)
    modifies es
    ensures es[..] == PrefixEntries(prefix, old(es[..]))
  {
    for i := 0 to es.Length
      invariant forall k | 0 <= k < i :: es[k] == PrefixEntry(prefix, old(es[k]))
      invariant forall k | i <= k < es.Length :: es[k] == old(es[k])
    {
      es[i] := es[i].(name := PrefixIn(prefix, es[i].name));
    }
  }

  method StripEntriesInPlace(prefix: Bytes, es: array<Entry>)
    modifies es
    ensures es[..] == StripEntries(prefix, old(es[..]))
  {
    for i := 0 to es.Length
      invariant forall k | 0 <= k < i :: es[k] == StripEntry(prefix, old(es[k]))
      invariant forall k | i <= k < es.Length :: es[k] == old(es[k])
    {
      es[i] := es[i].(name := StripOut(prefix, es[i].name));
    }
  }

  /** OffsetFetch, per-group form: a loop over groups around a loop over topics. */
  method OffsetFetchGroupsIn(prefix: Bytes, gs: array<GroupTopics>)
    modifies gs
    ensures gs[..] == PrefixGroups(prefix, old(gs[..]))
  {
    for i := 0 to gs.Length
      invariant forall k | 0 <= k < i :: gs[k] == PrefixGroup(prefix, old(gs[k]))
      invariant forall k | i <= k < gs.Length :: gs[k] == old(gs[k])
    {
      gs[i] := gs[i].(group := PrefixIn(prefix, gs[i].group));
      if gs[i].topics != None {
        ghost var was := gs[i].topics.value;
        var topics := gs[i].topics.value;
        for j := 0 to |topics|
          invariant |topics| == |was|
          invariant forall k | 0 <= k < j :: topics[k] == PrefixEntry(prefix, was[k])
          invariant forall k | j <= k < |was| :: topics[k] == was[k]
        {
          topics := topics[j := topics[j].(name := PrefixIn(prefix, topics[j].name))];
        }
        assert topics == PrefixEntries(prefix, was);
        gs[i] := gs[i].(topics := Some(topics));
      }
    }
  }

  /** ListGroups filters into the array it reads from: the write index never
      passes the read index, so no unread group is overwritten. */
  method ListGroupsInPlace(prefix: Bytes, groups: array<Entry>) returns (n: nat)
    modifies groups
    ensures n <= groups.Length
    ensures groups[..n] == ListGroupsOut(prefix, old(groups[..]))
  {
    n := 0;
    ghost var was := groups[..];
    for i := 0 to groups.Length
      invariant n <= i
      invariant groups[..n] == ListGroupsOut(prefix, was[..i])
      invariant forall k | i <= k < groups.Length :: groups[k] == was[k]
    {
      FilterSnoc(OwnsEntry(prefix), was, i);
      var g := groups[i];
      assert g == was[i];
      if BelongsToTenant(prefix, g.name) {
        groups[n] := g.(name := StripOut(prefix, g.name));
        n := n + 1;
      }
    }
    assert was[..|was|] == was;
  }

  method DescribeConfigsRequestInPlace(prefix: Bytes, rs: array<Resource>)
    modifies rs
    ensures rs[..] == DescribeConfigsIn(prefix, old(rs[..]))
  {
    for i := 0 to rs.Length
      invariant forall k | 0 <= k < i :: rs[k] == PrefixResource(prefix, old(rs[k]))
      invariant forall k | i <= k < rs.Length :: rs[k] == old(rs[k])
    {
      if IsNamed(rs[i]) {
        rs[i] := rs[i].(name := PrefixIn(prefix, rs[i].name));
      }
    }
  }

  method DescribeConfigsInPlace(prefix: Bytes, rs: array<Resource>) returns (n: nat)
    modifies rs
    ensures n <= rs.Length
    ensures rs[..n] == DescribeConfigsOut(prefix, old(rs[..]))
  {
    n := 0;
    ghost var was := rs[..];
    for i := 0 to rs.Length
      invariant n <= i
      invariant rs[..n] == DescribeConfigsOut(prefix, was[..i])
      invariant forall k | i <= k < rs.Length :: rs[k] == was[k]
    {
      FilterSnoc(KeepsResource(prefix), was, i);
      var r := rs[i];
      assert r == was[i];
      if IsNamed(r) {
        if !BelongsToTenant(prefix, r.name) {
          continue;
        }
        r := r.(name := StripOut(prefix, r.name));
      }
      rs[n] := r;
      n := n + 1;
    }
    assert was[..|was|] == was;
  }

  method ZeroIds(ids: seq<int>) returns (out: seq<int>)
    ensures out == Zeros(ids)
  {
    out := ids;
    for k := 0 to |ids|
      invariant |out| == |ids|
      invariant forall m | 0 <= m < k :: out[m] == 0
    {
      out := out[k := 0];
    }
  }

  method CollapseInPlace(ps: seq<Partition>) returns (out: seq<Partition>)
    ensures out == CollapsePartitions(ps)
  {
    out := ps;
    for j := 0 to |ps|
      invariant |out| == |ps|
      invariant forall m | 0 <= m < j :: out[m] == CollapsePartition(ps[m])
      invariant forall m | j <= m < |ps| :: out[m] == ps[m]
    {
      var p := out[j].(leader := 0);
      var replicas := ZeroIds(p.replicas);
      var isr := ZeroIds(p.isr);
      var offline := ZeroIds(p.offline);
      out := out[j := p.(replicas := replicas, isr := isr, offline := offline)];
    }
  }

  /** A decoded Metadata response. Its topic slice is the first `count` elements
      of `topics`. */
  class MetadataResponse {
    var brokers: seq<Node>
    var controller: int
    const topics: array<MetadataTopic>
    var count: nat

    ghost predicate Valid()
      reads this
    {
      count <= topics.Length
    }

    ghost function Contents(): Metadata
      requires Valid()
      reads this, topics
    {
      Metadata(brokers, controller, topics[..count])
    }

    constructor (brokers: seq<Node>, controller: int, topics: array<MetadataTopic>)
      ensures Valid() && this.topics == topics
      ensures Contents() == Metadata(brokers, controller, topics[..])
    {
      this.brokers := brokers;
      this.controller := controller;
      this.topics := topics;
      this.count := topics.Length;
    }

    method RewriteOut(prefix: Bytes, host: Bytes, port: int)
      requires Valid()
      modifies this, topics
      ensures Valid()
      ensures Contents() == MetadataOut(prefix, host, port, old(Contents()))
    {
      var rack: Option<Bytes> := None;
      if |brokers| > 0 {
        rack := brokers[0].rack;
      }
      brokers := [Node(0, host, port, rack)];
      controller := 0;

      ghost var was := old(topics[..count]);
      var n := 0;
      for i := 0 to count
        invariant n <= i && count == old(count)
        invariant brokers == old([VirtualBroker(host, port, brokers)]) && controller == 0
        invariant topics[..n] == RewriteTopics(prefix, Filter(OwnsTopic(prefix), was[..i]))
        invariant forall k | i <= k < count :: topics[k] == was[k]
      {
        FilterSnoc(OwnsTopic(prefix), was, i);
        var t := topics[i];
        assert t == was[i];
        if t.name == None {
          continue;
        }
        if !BelongsToTenant(prefix, t.name.value) {
          continue;
        }
        var ps := CollapseInPlace(t.partitions);
        topics[n] := MetadataTopic(StripOutPtr(prefix, t.name), ps, t.payload);
        n := n + 1;
      }
      assert was[..|was|] == was;
      count := n;
    }
  }
}
