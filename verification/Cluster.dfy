/** The broker behind the proxy, and the requests a tenant can make of it.

    A broker keeps records under topic names and under group names. What an
    operation does to the record it names and what it answers are arbitrary functions of
    that record. A `Broker` is denied looking inside a name, and touching any record but
    the one named. */
module Cluster {
  import opened Bytes
  import opened Prefix
  import opened Rewriters
  import opened Store

  /** The requests that name topics one by one. */
  datatype TopicApi = CreateTopics | DeleteTopics | Produce | Fetch | ListOffsets
  datatype OffsetApi = OffsetCommit | OffsetDelete

  datatype Request =
    | TopicRequest(topicApi: TopicApi, entries: seq<Entry>)
    | MetadataRequest(names: Option<seq<Option<Bytes>>>)
    | OffsetRequest(offsetApi: OffsetApi, group: Bytes, entries: seq<Entry>)
    | OffsetFetchRequest(fetch: GroupTopics)
    | OffsetFetchGroupsRequest(fetches: seq<GroupTopics>)
    | ListGroupsRequest
    | DeleteGroupsRequest(entries: seq<Entry>)

  datatype Response =
    | TopicResponse(entries: seq<Entry>)
    | MetadataResponse(metadata: Metadata)
    | OffsetResponse(entries: seq<Entry>)
    | OffsetFetchResponse(entries: seq<Entry>)
    | OffsetFetchGroupsResponse(fetched: seq<GroupTopics>)
    | ListGroupsResponse(entries: seq<Entry>)
    | DeleteGroupsResponse(entries: seq<Entry>)

  // ------------------------------------------------------------- The broker

  /** A group's own record, and a record per topic it holds offsets for. */
  datatype GroupRecord = GroupRecord(meta: Bytes, offsets: Store<Bytes>)
  datatype Cluster = Cluster(topics: Store<Bytes>, groups: Store<GroupRecord>)

  /** What an offset operation leaves of the group and of the offset, and its answer. */
  datatype OffsetEffect = OffsetEffect(meta: Option<Bytes>, offset: Option<Bytes>, reply: Bytes)

  /** How a broker treats one record: `None` is an absent record, before or after. */
  datatype Broker = Broker(
    nodes: seq<Node>,
    controller: int,
    topicOp: (TopicApi, Option<Bytes>, Bytes) -> (Option<Bytes>, Bytes),
    autoCreate: Option<Bytes> -> Option<Bytes>,
    partitions: Option<Bytes> -> seq<Partition>,
    topicInfo: Option<Bytes> -> Bytes,
    offsetOp: (OffsetApi, Option<Bytes>, Option<Bytes>, Option<Bytes>, Bytes) -> OffsetEffect,
    offsetRead: (Option<Bytes>, Option<Bytes>, Option<Bytes>, Bytes) -> Bytes,
    groupInfo: Bytes -> Bytes,
    deleteGroup: (Option<Bytes>, Bytes) -> (Option<Bytes>, Bytes)
  )

  function ServeTopics(b: Broker, s: Store<Bytes>, api: TopicApi, es: seq<Entry>): (Store<Bytes>, seq<Entry>)
    decreases |es|
  {
    if es == [] then (s, []) else
      var (record, reply) := b.topicOp(api, Lookup(s, es[0].name), es[0].payload);
      var (s', rest) := ServeTopics(b, Update(s, es[0].name, record), api, es[1..]);
      (s', [Entry(es[0].name, reply)] + rest)
  }

  function DescribeTopic(b: Broker, name: Bytes, record: Option<Bytes>): MetadataTopic {
    MetadataTopic(Some(name), b.partitions(record), b.topicInfo(record))
  }

  /** Metadata for named topics, which may create them. A name of null asks by
      topic id, which this broker answers with no name. */
  function ServeLookups(b: Broker, s: Store<Bytes>, names: seq<Option<Bytes>>): (Store<Bytes>, seq<MetadataTopic>)
    decreases |names|
  {
    if names == [] then (s, [])
    else if names[0] == None then
      var (s', rest) := ServeLookups(b, s, names[1..]);
      (s', [MetadataTopic(None, b.partitions(None), b.topicInfo(None))] + rest)
    else
      var name := names[0].value;
      var record := b.autoCreate(Lookup(s, name));
      var (s', rest) := ServeLookups(b, Update(s, name, record), names[1..]);
      (s', [DescribeTopic(b, name, record)] + rest)
  }

  function ListTopics(b: Broker, s: Store<Bytes>): seq<MetadataTopic> {
    if s == [] then [] else [DescribeTopic(b, s[0].0, Some(s[0].1))] + ListTopics(b, s[1..])
  }

  function Meta(g: Option<GroupRecord>): Option<Bytes> {
    if g == None then None else Some(g.value.meta)
  }

  function Offsets(g: Option<GroupRecord>): Store<Bytes> {
    if g == None then [] else g.value.offsets
  }

  function ServeOffset(b: Broker, c: Cluster, api: OffsetApi, group: Bytes, e: Entry): (Option<GroupRecord>, Bytes) {
    var g := Lookup(c.groups, group);
    var effect := b.offsetOp(api, Meta(g), Lookup(c.topics, e.name), Lookup(Offsets(g), e.name), e.payload);
    (if effect.meta == None then None
     else Some(GroupRecord(effect.meta.value, Update(Offsets(g), e.name, effect.offset))),
     effect.reply)
  }

  function ServeOffsets(b: Broker, c: Cluster, api: OffsetApi, group: Bytes, es: seq<Entry>): (Cluster, seq<Entry>)
    decreases |es|
  {
    if es == [] then (c, []) else
      var (g, reply) := ServeOffset(b, c, api, group, es[0]);
      var (c', rest) := ServeOffsets(b, c.(groups := Update(c.groups, group, g)), api, group, es[1..]);
      (c', [Entry(es[0].name, reply)] + rest)
  }

  function ReadOffset(b: Broker, c: Cluster, g: Option<GroupRecord>, name: Bytes, payload: Bytes): Entry {
    Entry(name, b.offsetRead(Meta(g), Lookup(c.topics, name), Lookup(Offsets(g), name), payload))
  }

  function ReadNamed(b: Broker, c: Cluster, g: Option<GroupRecord>, es: seq<Entry>): seq<Entry> {
    seq(|es|, i requires 0 <= i < |es| => ReadOffset(b, c, g, es[i].name, es[i].payload))
  }

  function ReadAll(b: Broker, c: Cluster, g: Option<GroupRecord>, offsets: Store<Bytes>): seq<Entry> {
    seq(|offsets|, i requires 0 <= i < |offsets| => ReadOffset(b, c, g, offsets[i].0, []))
  }

  function ServeFetch(b: Broker, c: Cluster, f: GroupTopics): seq<Entry> {
    var g := Lookup(c.groups, f.group);
    if f.topics == None then ReadAll(b, c, g, Offsets(g)) else ReadNamed(b, c, g, f.topics.value)
  }

  function ServeFetches(b: Broker, c: Cluster, fs: seq<GroupTopics>): seq<GroupTopics> {
    seq(|fs|, i requires 0 <= i < |fs| => GroupTopics(fs[i].group, Some(ServeFetch(b, c, fs[i]))))
  }

  function ListGroups(b: Broker, s: Store<GroupRecord>): seq<Entry> {
    if s == [] then [] else [Entry(s[0].0, b.groupInfo(s[0].1.meta))] + ListGroups(b, s[1..])
  }

  function ServeDeleteGroups(b: Broker, s: Store<GroupRecord>, es: seq<Entry>): (Store<GroupRecord>, seq<Entry>)
    decreases |es|
  {
    if es == [] then (s, []) else
      var g := Lookup(s, es[0].name);
      var (meta, reply) := b.deleteGroup(Meta(g), es[0].payload);
      var g' := if meta == None then None else Some(GroupRecord(meta.value, Offsets(g)));
      var (s', rest) := ServeDeleteGroups(b, Update(s, es[0].name, g'), es[1..]);
      (s', [Entry(es[0].name, reply)] + rest)
  }

  function ServeMetadata(b: Broker, s: Store<Bytes>, names: Option<seq<Option<Bytes>>>): (Store<Bytes>, Metadata) {
    var (s', topics) := if names == None then (s, ListTopics(b, s)) else ServeLookups(b, s, names.value);
    (s', Metadata(b.nodes, b.controller, topics))
  }

  /** One request, served by one broker. */
  function Serve(b: Broker, c: Cluster, r: Request): (Cluster, Response) {
    match r
    case TopicRequest(api, es) =>
      var (s, out) := ServeTopics(b, c.topics, api, es); (c.(topics := s), TopicResponse(out))
    case MetadataRequest(names) =>
      var (s, m) := ServeMetadata(b, c.topics, names); (c.(topics := s), MetadataResponse(m))
    case OffsetRequest(api, group, es) =>
      var (c', out) := ServeOffsets(b, c, api, group, es); (c', OffsetResponse(out))
    case OffsetFetchRequest(f) => (c, OffsetFetchResponse(ServeFetch(b, c, f)))
    case OffsetFetchGroupsRequest(fs) => (c, OffsetFetchGroupsResponse(ServeFetches(b, c, fs)))
    case ListGroupsRequest => (c, ListGroupsResponse(ListGroups(b, c.groups)))
    case DeleteGroupsRequest(es) =>
      var (s, out) := ServeDeleteGroups(b, c.groups, es); (c.(groups := s), DeleteGroupsResponse(out))
  }

  // -------------------------------------------------------------- The proxy

  function PrefixNames(prefix: Bytes, names: seq<Option<Bytes>>): seq<Option<Bytes>> {
    seq(|names|, i requires 0 <= i < |names| => PrefixInPtr(prefix, names[i]))
  }

  /** What the proxy sends upstream for a tenant's request. */
  function RequestIn(prefix: Bytes, r: Request): Request {
    match r
    case TopicRequest(api, es) => TopicRequest(api, PrefixEntries(prefix, es))
    case MetadataRequest(names) =>
      if names == None then r else MetadataRequest(Some(PrefixNames(prefix, names.value)))
    case OffsetRequest(api, group, es) => OffsetRequest(api, PrefixIn(prefix, group), PrefixEntries(prefix, es))
    case OffsetFetchRequest(f) => OffsetFetchRequest(PrefixGroup(prefix, f))
    case OffsetFetchGroupsRequest(fs) => OffsetFetchGroupsRequest(PrefixGroups(prefix, fs))
    case ListGroupsRequest => r
    case DeleteGroupsRequest(es) => DeleteGroupsRequest(PrefixEntries(prefix, es))
  }

  /** What the proxy hands back for an upstream response. */
  function ResponseOut(prefix: Bytes, host: Bytes, port: int, r: Response): Response {
    match r
    case TopicResponse(es) => TopicResponse(StripEntries(prefix, es))
    case MetadataResponse(m) => MetadataResponse(MetadataOut(prefix, host, port, m))
    case OffsetResponse(es) => OffsetResponse(StripEntries(prefix, es))
    case OffsetFetchResponse(es) => OffsetFetchResponse(StripEntries(prefix, es))
    case OffsetFetchGroupsResponse(gs) => OffsetFetchGroupsResponse(StripGroups(prefix, gs))
    case ListGroupsResponse(es) => ListGroupsResponse(ListGroupsOut(prefix, es))
    case DeleteGroupsResponse(es) => DeleteGroupsResponse(StripEntries(prefix, es))
  }

  predicate Named(es: seq<Entry>) {
    forall i | 0 <= i < |es| :: es[i].name != []
  }

  /** An empty group is harmless only where nothing is asked of it. */
  predicate NamedGroup(group: Bytes, es: seq<Entry>) {
    Named(es) && (group == [] ==> es == [])
  }

  predicate NamedFetch(f: GroupTopics) {
    if f.topics == None then f.group != [] else NamedGroup(f.group, f.topics.value)
  }

  /** Every name by which the request reaches a record is present and not empty. */
  predicate WellNamed(r: Request) {
    match r
    case TopicRequest(_, es) => Named(es)
    case MetadataRequest(names) =>
      names.Some? ==> forall i | 0 <= i < |names.value| :: names.value[i].Some? && names.value[i].value != []
    case OffsetRequest(_, group, es) => NamedGroup(group, es)
    case OffsetFetchRequest(f) => NamedFetch(f)
    case OffsetFetchGroupsRequest(fs) => forall i | 0 <= i < |fs| :: NamedFetch(fs[i])
    case ListGroupsRequest => true
    case DeleteGroupsRequest(es) => Named(es)
  }

  // ----------------------------------------------------- The dedicated cluster

  function Same(): Bytes -> Bytes { (b: Bytes) => b }

  function OwnGroup(prefix: Bytes): GroupRecord -> GroupRecord {
    (g: GroupRecord) => GroupRecord(g.meta, View(prefix, Same(), g.offsets))
  }

  /** The cluster a tenant would have to itself: its slice of the shared one. */
  function Dedicated(prefix: Bytes, c: Cluster): Cluster {
    Cluster(View(prefix, Same(), c.topics), View(prefix, OwnGroup(prefix), c.groups))
  }

  /** The groups a tenant can name hold offsets for its own topics only. */
  ghost predicate OwnOffsets(prefix: Bytes, groups: Store<GroupRecord>) {
    forall name | name != [] :: AllOwn(prefix, Offsets(Lookup(groups, PrefixIn(prefix, name))))
  }

  ghost predicate AllOwn(prefix: Bytes, offsets: Store<Bytes>) {
    forall x | x in offsets :: BelongsToTenant(prefix, x.0)
  }

  function CollapseTopic(t: MetadataTopic): MetadataTopic {
    t.(partitions := CollapsePartitions(t.partitions))
  }

  function CollapseTopics(ts: seq<MetadataTopic>): seq<MetadataTopic> {
    seq(|ts|, i requires 0 <= i < |ts| => CollapseTopic(ts[i]))
  }

  /** A response with its node ids collapsed onto the virtual broker, names untouched. */
  function Collapse(host: Bytes, port: int, r: Response): Response {
    match r
    case MetadataResponse(m) =>
      var rack := if m.brokers == [] then None else m.brokers[0].rack;
      MetadataResponse(Metadata([Node(0, host, port, rack)], 0, CollapseTopics(m.topics)))
    case _ => r
  }
}
