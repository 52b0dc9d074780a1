/** Each tenant sees its own dedicated cluster: the refinement theorem over every
    interleaving of requests, and exactly which prefixes it holds for. */
module Isolation {
  import opened Bytes
  import opened Prefix
  import opened Rewriters
  import opened Store
  import opened Cluster

  // --------------------------------------------------- A tenant's own requests

  lemma OwnKey(p: Bytes, name: Bytes)
    requires name != []
    ensures BelongsToTenant(p, PrefixIn(p, name)) && StripOut(p, PrefixIn(p, name)) == name
  {
    StripUndoesPrefix(p, name);
  }

  /** Prefixing and stripping a list, one element at a time. */
  lemma EntriesCons(p: Bytes, es: seq<Entry>, out: Entry, outs: seq<Entry>)
    requires es != []
    ensures PrefixEntries(p, es)[0] == PrefixEntry(p, es[0])
    ensures PrefixEntries(p, es)[1..] == PrefixEntries(p, es[1..])
    ensures StripEntries(p, [out] + outs) == [StripEntry(p, out)] + StripEntries(p, outs)
  {}

  lemma MapSame(v: Option<Bytes>)
    ensures MapOption(Same(), v) == v
  {}

  lemma {:induction false} TopicsOwn(b: Broker, p: Bytes, s: Store<Bytes>, api: TopicApi, es: seq<Entry>)
    requires Named(es)
    ensures var (s', out) := ServeTopics(b, s, api, PrefixEntries(p, es));
            ServeTopics(b, View(p, Same(), s), api, es) == (View(p, Same(), s'), StripEntries(p, out))
    decreases |es|
  {
    if es == [] {
      assert PrefixEntries(p, es) == [] && StripEntries(p, []) == [];
    } else {
      var key := PrefixIn(p, es[0].name);
      OwnKey(p, es[0].name);
      LookupView(p, Same(), s, key);
      MapSame(Lookup(s, key));
      var (record, reply) := b.topicOp(api, Lookup(s, key), es[0].payload);
      ViewUpdateOwn(p, Same(), s, key, record);
      MapSame(record);
      TopicsOwn(b, p, Update(s, key, record), api, es[1..]);
      var (_, rest) := ServeTopics(b, Update(s, key, record), api, PrefixEntries(p, es[1..]));
      EntriesCons(p, es, Entry(key, reply), rest);
    }
  }

  ghost predicate NamedAll(names: seq<Option<Bytes>>) {
    forall i | 0 <= i < |names| :: names[i].Some? && names[i].value != []
  }

  /** One topic's Metadata, from the shared cluster and from the dedicated one. */
  lemma DescribeOwn(b: Broker, p: Bytes, key: Bytes, record: Option<Bytes>)
    requires BelongsToTenant(p, key)
    ensures OwnsTopic(p)(DescribeTopic(b, key, record))
    ensures RewriteTopic(p, DescribeTopic(b, key, record))
            == CollapseTopic(DescribeTopic(b, StripOut(p, key), record))
  {}

  lemma TopicsCons(p: Bytes, t: MetadataTopic, ts: seq<MetadataTopic>)
    ensures RewriteTopics(p, [t] + ts) == [RewriteTopic(p, t)] + RewriteTopics(p, ts)
    ensures CollapseTopics([t] + ts) == [CollapseTopic(t)] + CollapseTopics(ts)
    ensures Filter(OwnsTopic(p), [t] + ts)
            == (if OwnsTopic(p)(t) then [t] else []) + Filter(OwnsTopic(p), ts)
  {
    assert ([t] + ts)[1..] == ts;
  }

  lemma {:induction false} LookupsOwn(b: Broker, p: Bytes, s: Store<Bytes>, names: seq<Option<Bytes>>)
    requires NamedAll(names)
    ensures var (s', out) := ServeLookups(b, s, PrefixNames(p, names));
            var (v', own) := ServeLookups(b, View(p, Same(), s), names);
            v' == View(p, Same(), s') && RewriteTopics(p, Filter(OwnsTopic(p), out)) == CollapseTopics(own)
    decreases |names|
  {
    if names == [] {
      assert PrefixNames(p, names) == [] && RewriteTopics(p, []) == [] && CollapseTopics([]) == [];
    } else {
      var name := names[0].value;
      var key := PrefixIn(p, name);
      OwnKey(p, name);
      LookupView(p, Same(), s, key);
      MapSame(Lookup(s, key));
      var record := b.autoCreate(Lookup(s, key));
      ViewUpdateOwn(p, Same(), s, key, record);
      MapSame(record);
      assert PrefixNames(p, names)[0] == Some(key);
      assert PrefixNames(p, names)[1..] == PrefixNames(p, names[1..]);
      LookupsOwn(b, p, Update(s, key, record), names[1..]);
      DescribeOwn(b, p, key, record);
      var (_, rest) := ServeLookups(b, Update(s, key, record), PrefixNames(p, names[1..]));
      var (_, own) := ServeLookups(b, View(p, Same(), Update(s, key, record)), names[1..]);
      TopicsCons(p, DescribeTopic(b, key, record), rest);
      TopicsCons(p, DescribeTopic(b, key, record), Filter(OwnsTopic(p), rest));
      TopicsCons(p, DescribeTopic(b, name, record), own);
    }
  }

  lemma {:induction false} ListTopicsOwn(b: Broker, p: Bytes, s: Store<Bytes>)
    ensures RewriteTopics(p, Filter(OwnsTopic(p), ListTopics(b, s)))
            == CollapseTopics(ListTopics(b, View(p, Same(), s)))
  {
    if s == [] {
      assert RewriteTopics(p, []) == [] && CollapseTopics([]) == [];
    } else {
      var (key, record) := s[0];
      var t := DescribeTopic(b, key, Some(record));
      ListTopicsOwn(b, p, s[1..]);
      TopicsCons(p, t, ListTopics(b, s[1..]));
      TopicsCons(p, t, Filter(OwnsTopic(p), ListTopics(b, s[1..])));
      if BelongsToTenant(p, key) {
        DescribeOwn(b, p, key, Some(record));
        assert View(p, Same(), s)[1..] == View(p, Same(), s[1..]);
        TopicsCons(p, DescribeTopic(b, StripOut(p, key), Some(record)), ListTopics(b, View(p, Same(), s[1..])));
      } else {
        assert View(p, Same(), s) == View(p, Same(), s[1..]);
      }
    }
  }

  /** A group as the shared and as the dedicated cluster hold it. */
  lemma GroupOwn(p: Bytes, c: Cluster, group: Bytes)
    requires group != [] && OwnOffsets(p, c.groups)
    ensures var g := Lookup(c.groups, PrefixIn(p, group));
            var h := Lookup(Dedicated(p, c).groups, group);
            && h == MapOption(OwnGroup(p), g)
            && Meta(h) == Meta(g)
            && Offsets(h) == View(p, Same(), Offsets(g))
            && AllOwn(p, Offsets(g))
  {
    OwnKey(p, group);
    LookupView(p, OwnGroup(p), c.groups, PrefixIn(p, group));
  }

  lemma OffsetOwn(b: Broker, p: Bytes, c: Cluster, api: OffsetApi, group: Bytes, e: Entry)
    requires group != [] && e.name != [] && OwnOffsets(p, c.groups)
    ensures var (g, reply) := ServeOffset(b, c, api, PrefixIn(p, group), PrefixEntry(p, e));
            && ServeOffset(b, Dedicated(p, c), api, group, e) == (MapOption(OwnGroup(p), g), reply)
            && (g.Some? ==> AllOwn(p, g.value.offsets))
  {
    var key, topic := PrefixIn(p, group), PrefixIn(p, e.name);
    OwnKey(p, group);
    OwnKey(p, e.name);
    GroupOwn(p, c, group);
    var g := Lookup(c.groups, key);
    LookupView(p, Same(), c.topics, topic);
    MapSame(Lookup(c.topics, topic));
    LookupView(p, Same(), Offsets(g), topic);
    MapSame(Lookup(Offsets(g), topic));
    var effect := b.offsetOp(api, Meta(g), Lookup(c.topics, topic), Lookup(Offsets(g), topic), e.payload);
    ViewUpdateOwn(p, Same(), Offsets(g), topic, effect.offset);
    MapSame(effect.offset);
    UpdateEntries(Offsets(g), topic, effect.offset);
  }

  lemma OwnOffsetsUpdate(p: Bytes, groups: Store<GroupRecord>, key: Bytes, g: Option<GroupRecord>)
    requires OwnOffsets(p, groups)
    requires g.Some? && BelongsToTenant(p, key) ==> AllOwn(p, g.value.offsets)
    ensures OwnOffsets(p, Update(groups, key, g))
  {
    forall name | name != [] ensures AllOwn(p, Offsets(Lookup(Update(groups, key, g), PrefixIn(p, name)))) {
      OwnKey(p, name);
      LookupUpdate(groups, key, g, PrefixIn(p, name));
    }
  }

  lemma {:induction false} OffsetsOwn(b: Broker, p: Bytes, c: Cluster, api: OffsetApi, group: Bytes, es: seq<Entry>)
    requires NamedGroup(group, es) && OwnOffsets(p, c.groups)
    ensures var (c', out) := ServeOffsets(b, c, api, PrefixIn(p, group), PrefixEntries(p, es));
            && ServeOffsets(b, Dedicated(p, c), api, group, es) == (Dedicated(p, c'), StripEntries(p, out))
            && OwnOffsets(p, c'.groups)
    decreases |es|
  {
    if es == [] {
      assert PrefixEntries(p, es) == [] && StripEntries(p, []) == [];
    } else {
      var key := PrefixIn(p, group);
      var e := PrefixEntry(p, es[0]);
      OwnKey(p, group);
      OwnKey(p, es[0].name);
      OffsetOwn(b, p, c, api, group, es[0]);
      var (g, reply) := ServeOffset(b, c, api, key, e);
      ViewUpdateOwn(p, OwnGroup(p), c.groups, key, g);
      OwnOffsetsUpdate(p, c.groups, key, g);
      var next := c.(groups := Update(c.groups, key, g));
      OffsetsOwn(b, p, next, api, group, es[1..]);
      var (_, rest) := ServeOffsets(b, next, api, key, PrefixEntries(p, es[1..]));
      EntriesCons(p, es, Entry(e.name, reply), rest);
    }
  }

  lemma ReadOwn(b: Broker, p: Bytes, c: Cluster, group: Bytes, topic: Bytes, payload: Bytes)
    requires group != [] && BelongsToTenant(p, topic) && OwnOffsets(p, c.groups)
    ensures var g := Lookup(c.groups, PrefixIn(p, group));
            var h := Lookup(Dedicated(p, c).groups, group);
            StripEntry(p, ReadOffset(b, c, g, topic, payload))
            == ReadOffset(b, Dedicated(p, c), h, StripOut(p, topic), payload)
  {
    GroupOwn(p, c, group);
    var g := Lookup(c.groups, PrefixIn(p, group));
    LookupView(p, Same(), c.topics, topic);
    MapSame(Lookup(c.topics, topic));
    LookupView(p, Same(), Offsets(g), topic);
    MapSame(Lookup(Offsets(g), topic));
  }

  lemma ReadNamedOwn(b: Broker, p: Bytes, c: Cluster, group: Bytes, es: seq<Entry>)
    requires group != [] && Named(es) && OwnOffsets(p, c.groups)
    ensures StripEntries(p, ReadNamed(b, c, Lookup(c.groups, PrefixIn(p, group)), PrefixEntries(p, es)))
            == ReadNamed(b, Dedicated(p, c), Lookup(Dedicated(p, c).groups, group), es)
  {
    OwnKey(p, group);
    var shared := ReadNamed(b, c, Lookup(c.groups, PrefixIn(p, group)), PrefixEntries(p, es));
    var own := ReadNamed(b, Dedicated(p, c), Lookup(Dedicated(p, c).groups, group), es);
    forall i | 0 <= i < |es| ensures StripEntry(p, shared[i]) == own[i] {
      OwnKey(p, es[i].name);
      ReadOwn(b, p, c, group, PrefixIn(p, es[i].name), es[i].payload);
    }
  }

  lemma ReadAllOwn(b: Broker, p: Bytes, c: Cluster, group: Bytes)
    requires group != [] && OwnOffsets(p, c.groups)
    ensures var g := Lookup(c.groups, PrefixIn(p, group));
            var h := Lookup(Dedicated(p, c).groups, group);
            StripEntries(p, ReadAll(b, c, g, Offsets(g))) == ReadAll(b, Dedicated(p, c), h, Offsets(h))
  {
    var key := PrefixIn(p, group);
    GroupOwn(p, c, group);
    var g, h := Lookup(c.groups, key), Lookup(Dedicated(p, c).groups, group);
    ViewAllOwn(p, Same(), Offsets(g));
    forall i | 0 <= i < |Offsets(g)|
      ensures StripEntry(p, ReadAll(b, c, g, Offsets(g))[i]) == ReadAll(b, Dedicated(p, c), h, Offsets(h))[i]
    {
      ReadOwn(b, p, c, group, Offsets(g)[i].0, []);
    }
  }

  lemma FetchOwn(b: Broker, p: Bytes, c: Cluster, f: GroupTopics)
    requires NamedFetch(f) && OwnOffsets(p, c.groups)
    ensures StripEntries(p, ServeFetch(b, c, PrefixGroup(p, f))) == ServeFetch(b, Dedicated(p, c), f)
  {
    if f.topics == None {
      ReadAllOwn(b, p, c, f.group);
    } else if f.group == [] {
      assert StripEntries(p, ServeFetch(b, c, PrefixGroup(p, f))) == [];
    } else {
      ReadNamedOwn(b, p, c, f.group, f.topics.value);
    }
  }

  lemma FetchesOwn(b: Broker, p: Bytes, c: Cluster, fs: seq<GroupTopics>)
    requires WellNamed(OffsetFetchGroupsRequest(fs)) && OwnOffsets(p, c.groups)
    ensures StripGroups(p, ServeFetches(b, c, PrefixGroups(p, fs))) == ServeFetches(b, Dedicated(p, c), fs)
  {
    var shared := ServeFetches(b, c, PrefixGroups(p, fs));
    var own := ServeFetches(b, Dedicated(p, c), fs);
    forall i | 0 <= i < |fs| ensures StripGroup(p, shared[i]) == own[i] {
      FetchOwn(b, p, c, fs[i]);
      StripUndoesPrefix(p, fs[i].group);
    }
  }

  lemma {:induction false} ListGroupsOwn(b: Broker, p: Bytes, s: Store<GroupRecord>)
    ensures ListGroupsOut(p, ListGroups(b, s)) == ListGroups(b, View(p, OwnGroup(p), s))
  {
    if s == [] {
      assert StripEntries(p, []) == [];
    } else {
      var e := Entry(s[0].0, b.groupInfo(s[0].1.meta));
      var rest := ListGroups(b, s[1..]);
      ListGroupsOwn(b, p, s[1..]);
      assert ([e] + rest)[1..] == rest;
      if BelongsToTenant(p, e.name) {
        EntriesCons(p, [e], e, Filter(OwnsEntry(p), rest));
        assert View(p, OwnGroup(p), s)[1..] == View(p, OwnGroup(p), s[1..]);
      } else {
        assert View(p, OwnGroup(p), s) == View(p, OwnGroup(p), s[1..]);
        assert Filter(OwnsEntry(p), ListGroups(b, s)) == Filter(OwnsEntry(p), rest);
      }
    }
  }

  lemma {:induction false} DeleteGroupsOwn(b: Broker, p: Bytes, c: Cluster, es: seq<Entry>)
    requires Named(es) && OwnOffsets(p, c.groups)
    ensures var (s', out) := ServeDeleteGroups(b, c.groups, PrefixEntries(p, es));
            && ServeDeleteGroups(b, Dedicated(p, c).groups, es)
               == (View(p, OwnGroup(p), s'), StripEntries(p, out))
            && OwnOffsets(p, s')
    decreases |es|
  {
    if es == [] {
      assert PrefixEntries(p, es) == [] && StripEntries(p, []) == [];
    } else {
      var key := PrefixIn(p, es[0].name);
      OwnKey(p, es[0].name);
      GroupOwn(p, c, es[0].name);
      var g := Lookup(c.groups, key);
      var (meta, reply) := b.deleteGroup(Meta(g), es[0].payload);
      var g' := if meta == None then None else Some(GroupRecord(meta.value, Offsets(g)));
      ViewUpdateOwn(p, OwnGroup(p), c.groups, key, g');
      OwnOffsetsUpdate(p, c.groups, key, g');
      var next := c.(groups := Update(c.groups, key, g'));
      DeleteGroupsOwn(b, p, next, es[1..]);
      var (_, rest) := ServeDeleteGroups(b, next.groups, PrefixEntries(p, es[1..]));
      EntriesCons(p, es, Entry(key, reply), rest);
    }
  }

  /** A tenant's own request: the shared cluster, seen through the proxy, takes the
      step its dedicated cluster takes, and gives the answer that one gives. */
  lemma OwnStep(b: Broker, host: Bytes, port: int, p: Bytes, c: Cluster, r: Request)
    requires WellNamed(r) && OwnOffsets(p, c.groups)
    ensures var (c', response) := Serve(b, c, RequestIn(p, r));
            var (d', answer) := Serve(b, Dedicated(p, c), r);
            && d' == Dedicated(p, c')
            && ResponseOut(p, host, port, response) == Collapse(host, port, answer)
            && OwnOffsets(p, c'.groups)
  {
    hide ServeTopics, ServeLookups, ListTopics, ServeOffsets, ServeFetch, ServeFetches, ListGroups, ServeDeleteGroups,
         View, OwnOffsets, PrefixEntries, PrefixNames, PrefixGroup, PrefixGroups,
         StripEntries, StripGroups, ListGroupsOut, RewriteTopics, CollapseTopics, Filter;
    match r
    case TopicRequest(api, es) => TopicsOwn(b, p, c.topics, api, es);
    case MetadataRequest(names) =>
      if names == None { ListTopicsOwn(b, p, c.topics); } else { LookupsOwn(b, p, c.topics, names.value); }
    case OffsetRequest(api, group, es) => OffsetsOwn(b, p, c, api, group, es);
    case OffsetFetchRequest(f) => FetchOwn(b, p, c, f);
    case OffsetFetchGroupsRequest(fs) => FetchesOwn(b, p, c, fs);
    case ListGroupsRequest => ListGroupsOwn(b, p, c.groups);
    case DeleteGroupsRequest(es) => DeleteGroupsOwn(b, p, c, es);
  }

  // ------------------------------------------------ Another tenant's requests

  lemma {:induction false} TopicsForeign(b: Broker, p: Bytes, q: Bytes, s: Store<Bytes>, api: TopicApi, es: seq<Entry>)
    requires Incomparable(p, q)
    ensures View(p, Same(), ServeTopics(b, s, api, PrefixEntries(q, es)).0) == View(p, Same(), s)
    decreases |es|
  {
    if es != [] {
      var key := PrefixIn(q, es[0].name);
      ForeignNameIsNotOwn(p, q, es[0].name);
      var (record, _) := b.topicOp(api, Lookup(s, key), es[0].payload);
      ViewUpdateForeign(p, Same(), s, key, record);
      EntriesCons(q, es, es[0], []);
      TopicsForeign(b, p, q, Update(s, key, record), api, es[1..]);
    }
  }

  lemma {:induction false} LookupsForeign(b: Broker, p: Bytes, q: Bytes, s: Store<Bytes>, names: seq<Option<Bytes>>)
    requires Incomparable(p, q)
    ensures View(p, Same(), ServeLookups(b, s, PrefixNames(q, names)).0) == View(p, Same(), s)
    decreases |names|
  {
    if names != [] && names[0] == None {
      assert PrefixNames(q, names)[0] == None;
      assert PrefixNames(q, names)[1..] == PrefixNames(q, names[1..]);
      LookupsForeign(b, p, q, s, names[1..]);
    } else if names != [] {
      var key := PrefixIn(q, names[0].value);
      ForeignNameIsNotOwn(p, q, names[0].value);
      var record := b.autoCreate(Lookup(s, key));
      ViewUpdateForeign(p, Same(), s, key, record);
      assert PrefixNames(q, names)[0] == Some(key);
      assert PrefixNames(q, names)[1..] == PrefixNames(q, names[1..]);
      LookupsForeign(b, p, q, Update(s, key, record), names[1..]);
    }
  }

  lemma {:induction false} OffsetsForeign(
      b: Broker, p: Bytes, c: Cluster, api: OffsetApi, group: Bytes, es: seq<Entry>)
    requires !BelongsToTenant(p, group) && OwnOffsets(p, c.groups)
    ensures var c' := ServeOffsets(b, c, api, group, es).0;
            Dedicated(p, c') == Dedicated(p, c) && OwnOffsets(p, c'.groups)
    decreases |es|
  {
    if es != [] {
      var (g, _) := ServeOffset(b, c, api, group, es[0]);
      ViewUpdateForeign(p, OwnGroup(p), c.groups, group, g);
      OwnOffsetsUpdate(p, c.groups, group, g);
      OffsetsForeign(b, p, c.(groups := Update(c.groups, group, g)), api, group, es[1..]);
    }
  }

  lemma {:induction false} DeleteGroupsForeign(b: Broker, p: Bytes, q: Bytes, s: Store<GroupRecord>, es: seq<Entry>)
    requires Incomparable(p, q) && OwnOffsets(p, s)
    ensures var s' := ServeDeleteGroups(b, s, PrefixEntries(q, es)).0;
            View(p, OwnGroup(p), s') == View(p, OwnGroup(p), s) && OwnOffsets(p, s')
    decreases |es|
  {
    if es != [] {
      var key := PrefixIn(q, es[0].name);
      ForeignNameIsNotOwn(p, q, es[0].name);
      var g := Lookup(s, key);
      var (meta, _) := b.deleteGroup(Meta(g), es[0].payload);
      var g' := if meta == None then None else Some(GroupRecord(meta.value, Offsets(g)));
      ViewUpdateForeign(p, OwnGroup(p), s, key, g');
      OwnOffsetsUpdate(p, s, key, g');
      EntriesCons(q, es, es[0], []);
      DeleteGroupsForeign(b, p, q, Update(s, key, g'), es[1..]);
    }
  }

  /** Another tenant's request, whatever it names, leaves the dedicated cluster where it
      was. */
  lemma ForeignStep(b: Broker, p: Bytes, q: Bytes, c: Cluster, r: Request)
    requires Incomparable(p, q) && OwnOffsets(p, c.groups)
    ensures var c' := Serve(b, c, RequestIn(q, r)).0;
            Dedicated(p, c') == Dedicated(p, c) && OwnOffsets(p, c'.groups)
  {
    hide ServeTopics, ServeLookups, ListTopics, ServeOffsets, ServeFetch, ServeFetches, ListGroups, ServeDeleteGroups,
         View, OwnOffsets, PrefixEntries, PrefixNames, PrefixGroup, PrefixGroups;
    match r
    case TopicRequest(api, es) => TopicsForeign(b, p, q, c.topics, api, es);
    case MetadataRequest(names) =>
      if names != None { LookupsForeign(b, p, q, c.topics, names.value); }
    case OffsetRequest(api, group, es) =>
      ForeignNameIsNotOwn(p, q, group);
      OffsetsForeign(b, p, c, api, PrefixIn(q, group), PrefixEntries(q, es));
    case OffsetFetchRequest(_) =>
    case OffsetFetchGroupsRequest(_) =>
    case ListGroupsRequest =>
    case DeleteGroupsRequest(es) => DeleteGroupsForeign(b, p, q, c.groups, es);
  }

  // ------------------------------------------------------------- Whole runs

  /** One tenant's request; tenants are numbered, `prefixes[t]` is tenant t's prefix. */
  datatype Call = Call(tenant: nat, request: Request)

  /** What a proxy needs besides its tenants: the broker and the advertised address. */
  datatype Setup = Setup(broker: Broker, host: Bytes, port: int)

  predicate ByTenants(prefixes: seq<Bytes>, run: seq<Call>) {
    forall i | 0 <= i < |run| :: run[i].tenant < |prefixes|
  }

  /** Tenant t's own requests are well named; nothing is asked of the others'. */
  predicate OwnWellNamed(t: nat, run: seq<Call>) {
    forall i | 0 <= i < |run| :: run[i].tenant == t ==> WellNamed(run[i].request)
  }

  /** All calls, in order, through the proxy to one shared cluster. */
  function RunShared(x: Setup, prefixes: seq<Bytes>, c: Cluster, run: seq<Call>): (Cluster, seq<Response>)
    requires ByTenants(prefixes, run)
    decreases |run|
  {
    if run == [] then (c, []) else
      var p := prefixes[run[0].tenant];
      var (c', response) := Serve(x.broker, c, RequestIn(p, run[0].request));
      var (end, rest) := RunShared(x, prefixes, c', run[1..]);
      (end, [ResponseOut(p, x.host, x.port, response)] + rest)
  }

  /** Requests, in order, straight to a cluster of one's own. */
  function RunPrivate(x: Setup, d: Cluster, rs: seq<Request>): (Cluster, seq<Response>)
    decreases |rs|
  {
    if rs == [] then (d, []) else
      var (d', answer) := Serve(x.broker, d, rs[0]);
      var (end, rest) := RunPrivate(x, d', rs[1..]);
      (end, [Collapse(x.host, x.port, answer)] + rest)
  }

  function RequestsOf(t: nat, run: seq<Call>): seq<Request> {
    if run == [] then []
    else if run[0].tenant == t then [run[0].request] + RequestsOf(t, run[1..])
    else RequestsOf(t, run[1..])
  }

  /** The responses, out of one per call, that answer tenant t. */
  function ResponsesTo<T>(t: nat, run: seq<Call>, responses: seq<T>): seq<T> {
    if run == [] || responses == [] then []
    else if run[0].tenant == t then [responses[0]] + ResponsesTo(t, run[1..], responses[1..])
    else ResponsesTo(t, run[1..], responses[1..])
  }

  /** Tenant t cannot tell the shared cluster from a cluster of its own, in this run. */
  ghost predicate SeesDedicatedCluster(x: Setup, prefixes: seq<Bytes>, t: nat, c: Cluster, run: seq<Call>)
    requires t < |prefixes| && ByTenants(prefixes, run)
  {
    ResponsesTo(t, run, RunShared(x, prefixes, c, run).1)
    == RunPrivate(x, Dedicated(prefixes[t], c), RequestsOf(t, run)).1
  }

  ghost predicate Apart(prefixes: seq<Bytes>, t: nat)
    requires t < |prefixes|
  {
    forall u | 0 <= u < |prefixes| && u != t :: Incomparable(prefixes[t], prefixes[u])
  }

  /** The dedicated-cluster promise: for every broker and every interleaving, a tenant whose
      prefix is apart from the others and whose own requests are well named gets the
      responses a broker of its own would have given it, whatever the others name. The
      start is any cluster in which the tenant's groups hold offsets for its own topics
      only; and so is the end. */
  lemma {:induction false} DedicatedClusterRefinement(
      x: Setup, prefixes: seq<Bytes>, t: nat, c: Cluster, run: seq<Call>)
    requires t < |prefixes| && ByTenants(prefixes, run) && Apart(prefixes, t) && OwnWellNamed(t, run)
    requires OwnOffsets(prefixes[t], c.groups)
    ensures SeesDedicatedCluster(x, prefixes, t, c, run)
    ensures RunPrivate(x, Dedicated(prefixes[t], c), RequestsOf(t, run)).0
            == Dedicated(prefixes[t], RunShared(x, prefixes, c, run).0)
    ensures OwnOffsets(prefixes[t], RunShared(x, prefixes, c, run).0.groups)
    decreases |run|
  {
    if run != [] {
      var p, q, r := prefixes[t], prefixes[run[0].tenant], run[0].request;
      var (c', response) := Serve(x.broker, c, RequestIn(q, r));
      if run[0].tenant == t {
        OwnStep(x.broker, x.host, x.port, p, c, r);
        DedicatedClusterRefinement(x, prefixes, t, c', run[1..]);
        assert RequestsOf(t, run)[1..] == RequestsOf(t, run[1..]);
      } else {
        ForeignStep(x.broker, p, q, c, r);
        DedicatedClusterRefinement(x, prefixes, t, c', run[1..]);
      }
      var (_, responses) := RunShared(x, prefixes, c, run);
      assert responses[1..] == RunShared(x, prefixes, c', run[1..]).1;
    }
  }

  /** Non-interference: what the other tenants do, and what they started with,
      cannot be told from a tenant's responses. */
  lemma NonInterference(
      x: Setup, prefixes: seq<Bytes>, t: nat, c: Cluster, d: Cluster, run: seq<Call>, other: seq<Call>)
    requires t < |prefixes| && Apart(prefixes, t)
    requires ByTenants(prefixes, run) && ByTenants(prefixes, other) && OwnWellNamed(t, run) && OwnWellNamed(t, other)
    requires OwnOffsets(prefixes[t], c.groups) && OwnOffsets(prefixes[t], d.groups)
    requires Dedicated(prefixes[t], c) == Dedicated(prefixes[t], d)
    requires RequestsOf(t, run) == RequestsOf(t, other)
    ensures ResponsesTo(t, run, RunShared(x, prefixes, c, run).1)
            == ResponsesTo(t, other, RunShared(x, prefixes, d, other).1)
  {
    DedicatedClusterRefinement(x, prefixes, t, c, run);
    DedicatedClusterRefinement(x, prefixes, t, d, other);
  }

  // ----------------------------------------------------------- The broker's nodes

  /** The same broker, but for its nodes and its controller's id. */
  ghost predicate SameRecords(b: Broker, b': Broker) { b' == b.(nodes := b'.nodes, controller := b'.controller) }

  /** All a tenant learns of the nodes. */
  function FirstRack(nodes: seq<Node>): Option<Bytes> { if nodes == [] then None else nodes[0].rack }

  lemma {:induction false} SameTopics(b: Broker, b': Broker, s: Store<Bytes>, api: TopicApi, es: seq<Entry>)
    requires SameRecords(b, b')
    ensures ServeTopics(b', s, api, es) == ServeTopics(b, s, api, es)
    decreases |es|
  {
    if es != [] {
      var (record, _) := b.topicOp(api, Lookup(s, es[0].name), es[0].payload);
      SameTopics(b, b', Update(s, es[0].name, record), api, es[1..]);
    }
  }

  lemma {:induction false} SameLookups(b: Broker, b': Broker, s: Store<Bytes>, names: seq<Option<Bytes>>)
    requires SameRecords(b, b')
    ensures ServeLookups(b', s, names) == ServeLookups(b, s, names)
    decreases |names|
  {
    if names != [] {
      SameLookups(b, b', s, names[1..]);
      if names[0].Some? {
        var name := names[0].value;
        SameLookups(b, b', Update(s, name, b.autoCreate(Lookup(s, name))), names[1..]);
      }
    }
  }

  lemma {:induction false} SameListing(b: Broker, b': Broker, s: Store<Bytes>, groups: Store<GroupRecord>)
    requires SameRecords(b, b')
    ensures ListTopics(b', s) == ListTopics(b, s) && ListGroups(b', groups) == ListGroups(b, groups)
    decreases |s| + |groups|
  {
    if s != [] {
      SameListing(b, b', s[1..], groups);
    }
    if groups != [] {
      SameListing(b, b', s, groups[1..]);
    }
  }

  lemma {:induction false} SameOffsets(
      b: Broker, b': Broker, c: Cluster, api: OffsetApi, group: Bytes, es: seq<Entry>)
    requires SameRecords(b, b')
    ensures ServeOffsets(b', c, api, group, es) == ServeOffsets(b, c, api, group, es)
    decreases |es|
  {
    if es != [] {
      var (g, _) := ServeOffset(b, c, api, group, es[0]);
      SameOffsets(b, b', c.(groups := Update(c.groups, group, g)), api, group, es[1..]);
    }
  }

  lemma {:induction false} SameDeleteGroups(b: Broker, b': Broker, s: Store<GroupRecord>, es: seq<Entry>)
    requires SameRecords(b, b')
    ensures ServeDeleteGroups(b', s, es) == ServeDeleteGroups(b, s, es)
    decreases |es|
  {
    if es != [] {
      var g := Lookup(s, es[0].name);
      var (meta, _) := b.deleteGroup(Meta(g), es[0].payload);
      var g' := if meta == None then None else Some(GroupRecord(meta.value, Offsets(g)));
      SameDeleteGroups(b, b', Update(s, es[0].name, g'), es[1..]);
    }
  }

  lemma SameFetch(b: Broker, b': Broker, c: Cluster, f: GroupTopics)
    requires SameRecords(b, b')
    ensures ServeFetch(b', c, f) == ServeFetch(b, c, f)
  {}

  lemma SameFetches(b: Broker, b': Broker, c: Cluster, fs: seq<GroupTopics>)
    requires SameRecords(b, b')
    ensures ServeFetches(b', c, fs) == ServeFetches(b, c, fs)
  {
    forall i | 0 <= i < |fs| ensures ServeFetches(b', c, fs)[i] == ServeFetches(b, c, fs)[i] {
      SameFetch(b, b', c, fs[i]);
    }
  }

  lemma SameServe(b: Broker, b': Broker, c: Cluster, r: Request, p: Bytes, host: Bytes, port: int)
    requires SameRecords(b, b') && FirstRack(b'.nodes) == FirstRack(b.nodes)
    ensures Serve(b', c, r).0 == Serve(b, c, r).0
    ensures ResponseOut(p, host, port, Serve(b', c, r).1) == ResponseOut(p, host, port, Serve(b, c, r).1)
  {
    hide ServeTopics, ServeLookups, ListTopics, ServeOffsets, ServeFetch, ServeFetches, ListGroups, ServeDeleteGroups,
         RewriteTopics, Filter, StripEntries, StripGroups, ListGroupsOut, SameRecords;
    match r
    case TopicRequest(api, es) => SameTopics(b, b', c.topics, api, es);
    case MetadataRequest(names) =>
      if names == None { SameListing(b, b', c.topics, []); } else { SameLookups(b, b', c.topics, names.value); }
    case OffsetRequest(api, group, es) => SameOffsets(b, b', c, api, group, es);
    case OffsetFetchRequest(f) => SameFetch(b, b', c, f);
    case OffsetFetchGroupsRequest(fs) => SameFetches(b, b', c, fs);
    case ListGroupsRequest => SameListing(b, b', [], c.groups);
    case DeleteGroupsRequest(es) => SameDeleteGroups(b, b', c.groups, es);
  }

  /** No tenant learns where the broker's nodes are, how many there are, what their ids are
      or which is the controller: brokers that differ in no more, and whose first nodes are
      in the same rack, give every tenant the same responses in every run. */
  lemma {:induction false} NodesAreHidden(x: Setup, x': Setup, prefixes: seq<Bytes>, c: Cluster, run: seq<Call>)
    requires ByTenants(prefixes, run) && x' == x.(broker := x'.broker)
    requires SameRecords(x.broker, x'.broker) && FirstRack(x'.broker.nodes) == FirstRack(x.broker.nodes)
    ensures RunShared(x', prefixes, c, run) == RunShared(x, prefixes, c, run)
    decreases |run|
  {
    hide Serve, RequestIn, ResponseOut, SameRecords, FirstRack;
    if run != [] {
      var p := prefixes[run[0].tenant];
      SameServe(x.broker, x'.broker, c, RequestIn(p, run[0].request), p, x.host, x.port);
      NodesAreHidden(x, x', prefixes, Serve(x.broker, c, RequestIn(p, run[0].request)).0, run[1..]);
    }
  }

  // -------------------------------------------------------- Exactly when it holds

  /** Tenant t sees a dedicated cluster whatever the broker, the start and the run. */
  ghost predicate Isolated(prefixes: seq<Bytes>, t: nat)
    requires t < |prefixes|
  {
    forall x: Setup, c: Cluster, run: seq<Call> |
      ByTenants(prefixes, run) && OwnWellNamed(t, run) && OwnOffsets(prefixes[t], c.groups) ::
      SeesDedicatedCluster(x, prefixes, t, c, run)
  }

  /** A broker that accepts everything and remembers nothing but names. */
  function Agreeable(): Broker {
    Broker([], 0,
           (_, _, _) => (Some([]), []),
           _ => None,
           _ => [],
           _ => [],
           (_, _, _, _, _) => OffsetEffect(Some([]), Some([]), []),
           (_, _, _, _) => [],
           _ => [],
           (_, _) => (None, []))
  }

  /** A run of one call by u and one by t, and what t is told. */
  lemma TwoCalls(x: Setup, prefixes: seq<Bytes>, t: nat, u: nat, c: Cluster, r: Request, ask: Request)
    requires t < |prefixes| && u < |prefixes| && u != t
    ensures var run := [Call(u, r), Call(t, ask)];
            var c' := Serve(x.broker, c, RequestIn(prefixes[u], r)).0;
            && ResponsesTo(t, run, RunShared(x, prefixes, c, run).1)
               == [ResponseOut(prefixes[t], x.host, x.port, Serve(x.broker, c', RequestIn(prefixes[t], ask)).1)]
            && RunPrivate(x, Dedicated(prefixes[t], c), RequestsOf(t, run)).1
               == [Collapse(x.host, x.port, Serve(x.broker, Dedicated(prefixes[t], c), ask).1)]
  {
    hide Serve, ResponseOut, RequestIn, Collapse;
    var run := [Call(u, r), Call(t, ask)];
    var last := [Call(t, ask)];
    assert run[1..] == last && last[1..] == [];
    assert RequestsOf(t, last) == [ask] && [ask][1..] == [];
    var c' := Serve(x.broker, c, RequestIn(prefixes[u], r)).0;
    var answer := ResponseOut(prefixes[t], x.host, x.port, Serve(x.broker, c', RequestIn(prefixes[t], ask)).1);
    assert RunShared(x, prefixes, c', last).1 == [answer] + RunShared(x, prefixes, c', []).1 == [answer];
    var responses := RunShared(x, prefixes, c, run).1;
    assert responses[1..] == [answer];
    assert ResponsesTo(t, last, [answer]) == [answer];
  }

  /** What t is told when a broker that remembers topics is asked to list them. */
  function Listing(topics: seq<Bytes>): Response {
    MetadataResponse(Metadata([Node(0, [], 0, None)], 0,
                              seq(|topics|, i requires 0 <= i < |topics| => MetadataTopic(Some(topics[i]), [], []))))
  }

  /** With comparable prefixes, a topic u creates shows in t's listing, and in a cluster
      of t's own it would not. */
  lemma ComparablePrefixLeaks(prefixes: seq<Bytes>, t: nat, u: nat) returns (created: Bytes, seen: Bytes)
    requires t < |prefixes| && u < |prefixes| && u != t
    requires !Incomparable(prefixes[t], prefixes[u])
    ensures var x, empty := Setup(Agreeable(), [], 0), Cluster([], []);
            var create := TopicRequest(CreateTopics, [Entry(created, [])]);
            var run := [Call(u, create), Call(t, MetadataRequest(None))];
            && created != [] && seen != []
            && ResponsesTo(t, run, RunShared(x, prefixes, empty, run).1) == [Listing([seen])]
            && RunPrivate(x, Dedicated(prefixes[t], empty), RequestsOf(t, run)).1 == [Listing([])]
  {
    var p, q := prefixes[t], prefixes[u];
    if p <= q { seen, created := CollisionWhenPrefix(p, q); } else { created, seen := CollisionWhenPrefix(q, p); }
    var key := PrefixIn(q, created);
    OwnKey(p, seen);
    var x := Setup(Agreeable(), [], 0);
    var empty := Cluster([], []);
    var create, list := TopicRequest(CreateTopics, [Entry(created, [])]), MetadataRequest(None);

    var sent := PrefixEntries(q, [Entry(created, [])]);
    assert sent == [Entry(key, [])] && sent[1..] == [];
    var topics := [(key, [])];
    assert ServeTopics(x.broker, [], CreateTopics, sent).0 == topics;
    TwoCalls(x, prefixes, t, u, empty, create, list);
    ListTopicsOwn(x.broker, p, topics);
    assert topics[1..] == [];
    var own := View(p, Same(), topics);
    assert own == [(seen, [])] && own[1..] == [];
    var listed := ListTopics(x.broker, own);
    assert listed == [MetadataTopic(Some(seen), [], [])];
    assert CollapsePartitions([]) == [];
    assert CollapseTopics(listed) == [MetadataTopic(Some(seen), [], [])] == Listing([seen]).metadata.topics;
    assert CollapseTopics([]) == [] == Listing([]).metadata.topics;
  }

  /** The empty group is prefixed for nobody: whatever the prefixes, t reads the offsets u
      committed to it, and in a cluster of its own it would read none. */
  lemma EmptyGroupIsShared(prefixes: seq<Bytes>, t: nat, u: nat)
    requires t < |prefixes| && u < |prefixes| && u != t
    ensures var x, empty := Setup(Agreeable(), [], 0), Cluster([], []);
            var commit := OffsetRequest(OffsetCommit, [], [Entry([0], [])]);
            var run := [Call(u, commit), Call(t, OffsetFetchRequest(GroupTopics([], None)))];
            && ResponsesTo(t, run, RunShared(x, prefixes, empty, run).1)
               == [OffsetFetchResponse([Entry(StripOut(prefixes[t], PrefixIn(prefixes[u], [0])), [])])]
            && RunPrivate(x, Dedicated(prefixes[t], empty), RequestsOf(t, run)).1 == [OffsetFetchResponse([])]
  {
    var x := Setup(Agreeable(), [], 0);
    var empty := Cluster([], []);
    var commit := OffsetRequest(OffsetCommit, [], [Entry([0], [])]);
    var ask := OffsetFetchRequest(GroupTopics([], None));
    TwoCalls(x, prefixes, t, u, empty, commit, ask);

    var topic := PrefixIn(prefixes[u], [0]);
    var sent := PrefixEntries(prefixes[u], [Entry([0], [])]);
    assert sent == [Entry(topic, [])] && sent[1..] == [];
    var g := GroupRecord([], [(topic, [])]);
    assert ServeOffset(x.broker, empty, OffsetCommit, [], sent[0]) == (Some(g), []);
    var held := Cluster([], [([], g)]);
    assert ServeOffsets(x.broker, empty, OffsetCommit, [], sent).0 == held;
    var fetched := ServeFetch(x.broker, held, GroupTopics([], None));
    assert fetched == [Entry(topic, [])];
    assert StripEntries(prefixes[t], fetched) == [StripEntry(prefixes[t], fetched[0])];
    assert ServeFetch(x.broker, Dedicated(prefixes[t], empty), GroupTopics([], None)) == [];
  }

  /** Pairwise incomparable prefixes are not just enough: they are needed. */
  lemma IsolatedIff(prefixes: seq<Bytes>, t: nat)
    requires t < |prefixes|
    ensures Isolated(prefixes, t) <==> Apart(prefixes, t)
  {
    if Apart(prefixes, t) {
      forall x: Setup, c: Cluster, run: seq<Call> |
        ByTenants(prefixes, run) && OwnWellNamed(t, run) && OwnOffsets(prefixes[t], c.groups)
        ensures SeesDedicatedCluster(x, prefixes, t, c, run)
      {
        DedicatedClusterRefinement(x, prefixes, t, c, run);
      }
    } else {
      var u :| 0 <= u < |prefixes| && u != t && !Incomparable(prefixes[t], prefixes[u]);
      var created, seen := ComparablePrefixLeaks(prefixes, t, u);
      var x, empty := Setup(Agreeable(), [], 0), Cluster([], []);
      var run := [Call(u, TopicRequest(CreateTopics, [Entry(created, [])])), Call(t, MetadataRequest(None))];
      assert |Listing([seen]).metadata.topics| == 1 && |Listing([]).metadata.topics| == 0;
      assert !SeesDedicatedCluster(x, prefixes, t, empty, run);
      assert ByTenants(prefixes, run) && OwnWellNamed(t, run) && OwnOffsets(prefixes[t], empty.groups);
    }
  }

  /** What is asked of the start is needed too: a cluster gives t a dedicated view in all
      its runs exactly when the groups t can name hold offsets for its own topics only. */
  lemma StartLooksDedicatedIff(prefixes: seq<Bytes>, t: nat, c: Cluster)
    requires t < |prefixes| && Apart(prefixes, t)
    ensures (forall x: Setup, run: seq<Call> | ByTenants(prefixes, run) && OwnWellNamed(t, run) ::
               SeesDedicatedCluster(x, prefixes, t, c, run))
            <==> OwnOffsets(prefixes[t], c.groups)
  {
    hide SeesDedicatedCluster, OwnOffsets;
    if OwnOffsets(prefixes[t], c.groups) {
      forall x: Setup, run: seq<Call> | ByTenants(prefixes, run) && OwnWellNamed(t, run)
        ensures SeesDedicatedCluster(x, prefixes, t, c, run)
      {
        DedicatedClusterRefinement(x, prefixes, t, c, run);
      }
    } else {
      var name := ForeignOffset(prefixes[t], c);
      var run := [Call(t, OffsetFetchRequest(GroupTopics(name, None)))];
      ForeignOffsetShows(prefixes, t, c, name);
      assert ByTenants(prefixes, run) && OwnWellNamed(t, run);
    }
  }

  lemma ForeignOffset(p: Bytes, c: Cluster) returns (name: Bytes)
    requires !OwnOffsets(p, c.groups)
    ensures name != [] && !AllOwn(p, Offsets(Lookup(c.groups, PrefixIn(p, name))))
  {
    name :| name != [] && !AllOwn(p, Offsets(Lookup(c.groups, PrefixIn(p, name))));
  }

  /** A fetch of all the group's offsets gives more than the tenant's slice holds. */
  lemma ForeignOffsetShows(prefixes: seq<Bytes>, t: nat, c: Cluster, name: Bytes)
    requires t < |prefixes| && name != []
    requires !AllOwn(prefixes[t], Offsets(Lookup(c.groups, PrefixIn(prefixes[t], name))))
    ensures !SeesDedicatedCluster(Setup(Agreeable(), [], 0), prefixes, t, c,
                                  [Call(t, OffsetFetchRequest(GroupTopics(name, None)))])
  {
    hide AllOwn, Agreeable;
    var x, p := Setup(Agreeable(), [], 0), prefixes[t];
    var f := GroupTopics(name, None);
    var r := OffsetFetchRequest(f);
    var run := [Call(t, r)];
    OwnKey(p, name);
    LookupView(p, OwnGroup(p), c.groups, PrefixIn(p, name));
    var offsets := Offsets(Lookup(c.groups, PrefixIn(p, name)));
    var own := ServeFetch(x.broker, Dedicated(p, c), f);
    var shared := StripEntries(p, ServeFetch(x.broker, c, PrefixGroup(p, f)));
    assert |shared| == |offsets| && |own| == |View(p, Same(), offsets)|;
    ViewShrinks(p, Same(), offsets);
    assert |own| < |shared| by { NotAllOwn(p, offsets); }
    assert run[1..] == [] && RequestsOf(t, run) == [r] && [r][1..] == [];
    assert RunShared(x, prefixes, c, run).1 == [OffsetFetchResponse(shared)];
    assert ResponsesTo(t, run, [OffsetFetchResponse(shared)]) == [OffsetFetchResponse(shared)];
    assert RunPrivate(x, Dedicated(p, c), [r]).1 == [OffsetFetchResponse(own)];
  }

  lemma NotAllOwn(p: Bytes, offsets: Store<Bytes>)
    requires !AllOwn(p, offsets)
    ensures exists i :: 0 <= i < |offsets| && !BelongsToTenant(p, offsets[i].0)
  {}

  // -------------------------------------------------------- Exactly which requests

  function Bit<T>(o: Option<T>): byte { if o.None? then 0 else 1 }

  /** A broker that changes nothing and tells which records there are. */
  function Telling(): Broker {
    Broker([], 0,
           (_, record: Option<Bytes>, _) => (record, [Bit(record)]),
           (record: Option<Bytes>) => record,
           _ => [],
           _ => [],
           (_, meta: Option<Bytes>, topic: Option<Bytes>, offset: Option<Bytes>, _) =>
             OffsetEffect(meta, offset, [Bit(meta), Bit(topic), Bit(offset)]),
           (meta: Option<Bytes>, topic: Option<Bytes>, offset: Option<Bytes>, _) =>
             [Bit(meta), Bit(topic), Bit(offset)],
           _ => [],
           (meta: Option<Bytes>, _) => (meta, [Bit(meta)]))
  }

  lemma {:induction false} UpdateSame<V>(s: Store<V>, key: Bytes)
    ensures Update(s, key, Lookup(s, key)) == s
  {
    if s != [] {
      UpdateSame(s[1..], key);
      assert [s[0]] + s[1..] == s;
    }
  }

  lemma {:induction false} TellingTopics(s: Store<Bytes>, api: TopicApi, es: seq<Entry>)
    ensures ServeTopics(Telling(), s, api, es).0 == s
    ensures |ServeTopics(Telling(), s, api, es).1| == |es|
    ensures forall i | 0 <= i < |es| ::
              ServeTopics(Telling(), s, api, es).1[i] == Entry(es[i].name, [Bit(Lookup(s, es[i].name))])
    decreases |es|
  {
    if es != [] {
      UpdateSame(s, es[0].name);
      TellingTopics(s, api, es[1..]);
    }
  }

  lemma {:induction false} TellingLookups(s: Store<Bytes>, names: seq<Option<Bytes>>)
    ensures ServeLookups(Telling(), s, names).0 == s
    ensures |ServeLookups(Telling(), s, names).1| == |names|
    ensures forall i | 0 <= i < |names| :: ServeLookups(Telling(), s, names).1[i] == MetadataTopic(names[i], [], [])
    decreases |names|
  {
    if names != [] {
      if names[0].Some? {
        UpdateSame(s, names[0].value);
      }
      TellingLookups(s, names[1..]);
    }
  }

  lemma TellingOffset(c: Cluster, api: OffsetApi, group: Bytes, e: Entry)
    ensures var g := Lookup(c.groups, group);
            ServeOffset(Telling(), c, api, group, e)
            == (g, [Bit(Meta(g)), Bit(Lookup(c.topics, e.name)), Bit(Lookup(Offsets(g), e.name))])
  {
    UpdateSame(Offsets(Lookup(c.groups, group)), e.name);
  }

  lemma {:induction false} TellingOffsets(c: Cluster, api: OffsetApi, group: Bytes, es: seq<Entry>)
    ensures ServeOffsets(Telling(), c, api, group, es).0 == c
    ensures |ServeOffsets(Telling(), c, api, group, es).1| == |es|
    ensures forall i | 0 <= i < |es| ::
              ServeOffsets(Telling(), c, api, group, es).1[i]
              == Entry(es[i].name, ServeOffset(Telling(), c, api, group, es[i]).1)
    decreases |es|
  {
    if es != [] {
      TellingOffset(c, api, group, es[0]);
      UpdateSame(c.groups, group);
      assert c.(groups := Update(c.groups, group, Lookup(c.groups, group))) == c;
      TellingOffsets(c, api, group, es[1..]);
    }
  }

  lemma {:induction false} TellingDeleteGroups(s: Store<GroupRecord>, es: seq<Entry>)
    ensures ServeDeleteGroups(Telling(), s, es).0 == s
    ensures |ServeDeleteGroups(Telling(), s, es).1| == |es|
    ensures forall i | 0 <= i < |es| ::
              ServeDeleteGroups(Telling(), s, es).1[i] == Entry(es[i].name, [Bit(Meta(Lookup(s, es[i].name)))])
    decreases |es|
  {
    if es != [] {
      UpdateSame(s, es[0].name);
      TellingDeleteGroups(s, es[1..]);
    }
  }

  lemma TellingChangesNothing(c: Cluster, r: Request)
    ensures Serve(Telling(), c, r).0 == c
  {
    match r
    case TopicRequest(api, es) => TellingTopics(c.topics, api, es);
    case MetadataRequest(names) => if names.Some? { TellingLookups(c.topics, names.value); }
    case OffsetRequest(api, group, es) => TellingOffsets(c, api, group, es);
    case OffsetFetchRequest(_) =>
    case OffsetFetchGroupsRequest(_) =>
    case ListGroupsRequest =>
    case DeleteGroupsRequest(es) => TellingDeleteGroups(c.groups, es);
  }

  /** A cluster with one topic and one group, both under the empty name. */
  function Nameless(): Cluster { Cluster([([], [])], [([], GroupRecord([], [([], [])]))]) }

  lemma NamelessIsNobodys(p: Bytes)
    requires p != []
    ensures Dedicated(p, Nameless()) == Cluster([], []) && OwnOffsets(p, Nameless().groups)
    ensures Lookup(Nameless().topics, []).Some? && Meta(Lookup(Nameless().groups, [])).Some?
    ensures |Offsets(Lookup(Nameless().groups, []))| == 1
  {
    var c := Nameless();
    assert c.topics[1..] == [] && c.groups[1..] == [];
    assert !BelongsToTenant(p, []);
    assert View(p, Same(), c.topics) == View(p, Same(), []) == [];
    assert View(p, OwnGroup(p), c.groups) == View(p, OwnGroup(p), []) == [];
  }

  /** What the telling broker says of the nameless cluster, through the proxy, and what it
      says of an empty one. */
  predicate Tells(p: Bytes, r: Request) {
    ResponseOut(p, [], 0, Serve(Telling(), Nameless(), RequestIn(p, r)).1)
    != Collapse([], 0, Serve(Telling(), Cluster([], []), r).1)
  }

  lemma EmptyLookup<V>(key: Bytes)
    ensures Lookup<V>([], key) == None
  {}

  lemma TellsTopics(p: Bytes, api: TopicApi, es: seq<Entry>)
    requires p != [] && !Named(es)
    ensures Tells(p, TopicRequest(api, es))
  {
    hide ServeTopics, Telling, Nameless, Lookup;
    NamelessIsNobodys(p);
    EmptyLookup<Bytes>([]);
    var i :| 0 <= i < |es| && es[i].name == [];
    TellingTopics(Nameless().topics, api, PrefixEntries(p, es));
    TellingTopics([], api, es);
    var shared := ServeTopics(Telling(), Nameless().topics, api, PrefixEntries(p, es)).1;
    var own := ServeTopics(Telling(), [], api, es).1;
    assert StripEntries(p, shared)[i].payload == [1] && own[i].payload == [0];
  }

  lemma {:induction false} FilterShrinks<T>(keep: T -> bool, s: seq<T>, i: nat)
    requires i < |s| && !keep(s[i])
    ensures |Filter(keep, s)| < |s|
  {
    FilterNoLonger(keep, s[1..]);
    if i > 0 {
      FilterShrinks(keep, s[1..], i - 1);
    }
  }

  lemma {:induction false} FilterNoLonger<T>(keep: T -> bool, s: seq<T>)
    ensures |Filter(keep, s)| <= |s|
  {
    if s != [] {
      FilterNoLonger(keep, s[1..]);
    }
  }

  lemma TellsMetadata(p: Bytes, names: seq<Option<Bytes>>)
    requires p != [] && !NamedAll(names)
    ensures Tells(p, MetadataRequest(Some(names)))
  {
    var i :| 0 <= i < |names| && !(names[i].Some? && names[i].value != []);
    TellingLookups(Nameless().topics, PrefixNames(p, names));
    TellingLookups([], names);
    var shared := ServeLookups(Telling(), Nameless().topics, PrefixNames(p, names)).1;
    assert !OwnsTopic(p)(shared[i]);
    FilterShrinks(OwnsTopic(p), shared, i);
    assert |RewriteTopics(p, Filter(OwnsTopic(p), shared))| < |names|;
  }

  lemma TellsOffset(p: Bytes, api: OffsetApi, group: Bytes, e: Entry)
    requires p != [] && (group == [] || e.name == [])
    ensures ServeOffset(Telling(), Nameless(), api, PrefixIn(p, group), PrefixEntry(p, e)).1
            != ServeOffset(Telling(), Cluster([], []), api, group, e).1
  {
    NamelessIsNobodys(p);
    TellingOffset(Nameless(), api, PrefixIn(p, group), PrefixEntry(p, e));
    TellingOffset(Cluster([], []), api, group, e);
  }

  lemma TellsOffsets(p: Bytes, api: OffsetApi, group: Bytes, es: seq<Entry>)
    requires p != [] && !NamedGroup(group, es)
    ensures Tells(p, OffsetRequest(api, group, es))
  {
    hide ServeOffset, ServeOffsets, Telling, Nameless;
    var i :| 0 <= i < |es| && (group == [] || es[i].name == []);
    var sent := PrefixEntries(p, es);
    TellingOffsets(Nameless(), api, PrefixIn(p, group), sent);
    TellingOffsets(Cluster([], []), api, group, es);
    TellsOffset(p, api, group, es[i]);
    var shared := ServeOffsets(Telling(), Nameless(), api, PrefixIn(p, group), sent).1;
    var own := ServeOffsets(Telling(), Cluster([], []), api, group, es).1;
    assert StripEntries(p, shared)[i].payload != own[i].payload;
  }

  lemma TellsFetch(p: Bytes, f: GroupTopics)
    requires p != [] && !NamedFetch(f)
    ensures StripEntries(p, ServeFetch(Telling(), Nameless(), PrefixGroup(p, f)))
            != ServeFetch(Telling(), Cluster([], []), f)
  {
    NamelessIsNobodys(p);
    var shared := ServeFetch(Telling(), Nameless(), PrefixGroup(p, f));
    var own := ServeFetch(Telling(), Cluster([], []), f);
    if f.topics == None {
      assert |StripEntries(p, shared)| == 1 && |own| == 0;
    } else {
      var es := f.topics.value;
      var i :| 0 <= i < |es| && (f.group == [] || es[i].name == []);
      assert own[i].payload == [0, 0, 0];
      assert StripEntries(p, shared)[i].payload == shared[i].payload;
      assert shared[i].payload[0] == 1 || shared[i].payload[1] == 1;
    }
  }

  lemma TellsFetches(p: Bytes, fs: seq<GroupTopics>)
    requires p != [] && !WellNamed(OffsetFetchGroupsRequest(fs))
    ensures Tells(p, OffsetFetchGroupsRequest(fs))
  {
    hide NamedFetch, ServeFetch, Telling, Nameless;
    var i :| 0 <= i < |fs| && !NamedFetch(fs[i]);
    TellsFetch(p, fs[i]);
    var shared := ServeFetches(Telling(), Nameless(), PrefixGroups(p, fs));
    var own := ServeFetches(Telling(), Cluster([], []), fs);
    assert StripGroups(p, shared)[i] != own[i];
  }

  lemma TellsDeleteGroups(p: Bytes, es: seq<Entry>)
    requires p != [] && !Named(es)
    ensures Tells(p, DeleteGroupsRequest(es))
  {
    hide ServeDeleteGroups, Telling, Nameless, Lookup;
    NamelessIsNobodys(p);
    EmptyLookup<GroupRecord>([]);
    var i :| 0 <= i < |es| && es[i].name == [];
    TellingDeleteGroups(Nameless().groups, PrefixEntries(p, es));
    TellingDeleteGroups([], es);
    var shared := ServeDeleteGroups(Telling(), Nameless().groups, PrefixEntries(p, es)).1;
    var own := ServeDeleteGroups(Telling(), [], es).1;
    assert StripEntries(p, shared)[i].payload == [1] && own[i].payload == [0];
  }

  lemma IllNamedTells(p: Bytes, r: Request)
    requires p != [] && !WellNamed(r)
    ensures Tells(p, r)
  {
    hide Tells, Named, NamedGroup;
    match r
    case TopicRequest(api, es) => TellsTopics(p, api, es);
    case MetadataRequest(names) => TellsMetadata(p, names.value);
    case OffsetRequest(api, group, es) => TellsOffsets(p, api, group, es);
    case OffsetFetchRequest(f) => TellsOneFetch(p, f);
    case OffsetFetchGroupsRequest(fs) => TellsFetches(p, fs);
    case DeleteGroupsRequest(es) => TellsDeleteGroups(p, es);
  }

  lemma TellsOneFetch(p: Bytes, f: GroupTopics)
    requires p != [] && !NamedFetch(f)
    ensures Tells(p, OffsetFetchRequest(f))
  {
    hide NamedFetch, ServeFetch, Telling, Nameless;
    TellsFetch(p, f);
  }

  /** A run over the nameless cluster gives t a dedicated view only if t's requests are
      well named. */
  lemma {:induction false} NamelessRun(prefixes: seq<Bytes>, t: nat, run: seq<Call>)
    requires t < |prefixes| && prefixes[t] != [] && ByTenants(prefixes, run)
    requires var x := Setup(Telling(), [], 0);
             ResponsesTo(t, run, RunShared(x, prefixes, Nameless(), run).1)
             == RunPrivate(x, Cluster([], []), RequestsOf(t, run)).1
    ensures OwnWellNamed(t, run)
    decreases |run|
  {
    if run != [] {
      hide WellNamed, Serve, Telling, Nameless, Tells;
      var x := Setup(Telling(), [], 0);
      var p, r := prefixes[run[0].tenant], run[0].request;
      TellingChangesNothing(Nameless(), RequestIn(p, r));
      TellingChangesNothing(Cluster([], []), r);
      var responses := RunShared(x, prefixes, Nameless(), run).1;
      assert responses[1..] == RunShared(x, prefixes, Nameless(), run[1..]).1;
      if run[0].tenant == t {
        var rs := RequestsOf(t, run);
        assert rs[1..] == RequestsOf(t, run[1..]);
        var told, own := ResponsesTo(t, run, responses), RunPrivate(x, Cluster([], []), rs).1;
        assert told[0] == own[0] && told[1..] == own[1..];
        assert !Tells(p, r) by { TellsUnfolded(p, r); }
        if !WellNamed(r) {
          IllNamedTells(p, r);
        }
      }
      NamelessRun(prefixes, t, run[1..]);
      assert forall i | 1 <= i < |run| :: run[i] == run[1..][i - 1];
    }
  }

  lemma TellsUnfolded(p: Bytes, r: Request)
    ensures Tells(p, r) <==> ResponseOut(p, [], 0, Serve(Telling(), Nameless(), RequestIn(p, r)).1)
                             != Collapse([], 0, Serve(Telling(), Cluster([], []), r).1)
  {}

  /** For a tenant apart from the others, a given run looks dedicated, whatever the
      broker and the start, exactly when the tenant's own requests are well named. */
  lemma RunLooksDedicatedIff(prefixes: seq<Bytes>, t: nat, run: seq<Call>)
    requires t < |prefixes| && prefixes[t] != [] && Apart(prefixes, t) && ByTenants(prefixes, run)
    ensures (forall x: Setup, c: Cluster | OwnOffsets(prefixes[t], c.groups) ::
               SeesDedicatedCluster(x, prefixes, t, c, run))
            <==> OwnWellNamed(t, run)
  {
    hide SeesDedicatedCluster, OwnWellNamed, OwnOffsets;
    if OwnWellNamed(t, run) {
      forall x: Setup, c: Cluster | OwnOffsets(prefixes[t], c.groups)
        ensures SeesDedicatedCluster(x, prefixes, t, c, run)
      {
        DedicatedClusterRefinement(x, prefixes, t, c, run);
      }
    } else {
      NamelessIsNobodys(prefixes[t]);
      var x := Setup(Telling(), [], 0);
      if SeesDedicatedCluster(x, prefixes, t, Nameless(), run) {
        NamelessLooksDedicated(prefixes, t, run);
      }
    }
  }

  lemma NamelessLooksDedicated(prefixes: seq<Bytes>, t: nat, run: seq<Call>)
    requires t < |prefixes| && prefixes[t] != [] && ByTenants(prefixes, run)
    requires SeesDedicatedCluster(Setup(Telling(), [], 0), prefixes, t, Nameless(), run)
    ensures OwnWellNamed(t, run)
  {
    NamelessIsNobodys(prefixes[t]);
    NamelessRun(prefixes, t, run);
  }
}
