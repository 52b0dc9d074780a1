/** The tenant catalogue: resolver/memory.go. */
module Resolver {
  import opened Bytes

  datatype Tenant = Tenant(id: Bytes, topicPrefix: Bytes, upstream: Bytes)

  type Catalogue = map<Bytes, Tenant>

  datatype Error = Unauthorized | Duplicate | NotFound | Invalid

  predicate ValidTenant(t: Tenant) {
    t.id != [] && t.topicPrefix != [] && t.upstream != []
  }

  // ------------------------------------------------------------ Writes on values

  datatype Write = Set(tenant: Tenant) | Delete(id: Bytes)

  function WriteError(m: Catalogue, w: Write): Option<Error> {
    match w
    case Set(t) => if !ValidTenant(t) then Some(Invalid) else if t.id in m then Some(Duplicate) else None
    case Delete(id) => if id == [] then Some(Invalid) else if id !in m then Some(NotFound) else None
  }

  /** A write that fails changes nothing. */
  function Apply(m: Catalogue, w: Write): Catalogue {
    if WriteError(m, w).Some? then m
    else match w
         case Set(t) => m[t.id := t]
         case Delete(id) => m - {id}
  }

  function Find(m: Catalogue, id: Bytes): Option<Tenant> {
    if id in m then Some(m[id]) else None
  }

  /** Every tenant is valid and stored under its own ID. */
  ghost predicate Consistent(m: Catalogue) {
    forall id | id in m :: ValidTenant(m[id]) && m[id].id == id
  }

  /** The catalogue after a history of attempted writes. */
  function Replay(start: Catalogue, log: seq<Write>): Catalogue {
    if log == [] then start else Apply(Replay(start, log[..|log| - 1]), log[|log| - 1])
  }

  predicate Succeeds(start: Catalogue, log: seq<Write>, i: nat)
    requires i < |log|
  {
    WriteError(Replay(start, log[..i]), log[i]) == None
  }

  function About(w: Write): Bytes { if w.Set? then w.tenant.id else w.id }

  /** Write i is the last successful one about `id`. */
  ghost predicate LastAbout(start: Catalogue, log: seq<Write>, id: Bytes, i: nat) {
    && i < |log| && About(log[i]) == id && Succeeds(start, log, i)
    && forall j | i < j < |log| :: About(log[j]) == id ==> !Succeeds(start, log, j)
  }

  lemma ApplyKeepsConsistent(m: Catalogue, w: Write)
    requires Consistent(m)
    ensures Consistent(Apply(m, w))
  {}

  /** One write, seen through a lookup. */
  lemma FindApply(m: Catalogue, w: Write, id: Bytes)
    ensures Find(Apply(m, w), id)
            == if WriteError(m, w).Some? || About(w) != id then Find(m, id)
               else if w.Set? then Some(w.tenant) else None
  {}

  /** What setting a tenant does. One with all its fields, under a new ID, is found from then
      on; any other changes nothing, and the error says which it was. */
  lemma SetIff(m: Catalogue, t: Tenant)
    ensures var complete := t.id != [] && t.topicPrefix != [] && t.upstream != [];
            && Find(Apply(m, Set(t)), t.id) == (if complete && t.id !in m then Some(t) else Find(m, t.id))
            && WriteError(m, Set(t))
               == (if !complete then Some(Invalid) else if t.id in m then Some(Duplicate) else None)
    ensures forall id | id != t.id :: Find(Apply(m, Set(t)), id) == Find(m, id)
  {}

  /** What deleting one does. Nothing is found under the ID from then on, whether or not
      something was before, which is what the error says. */
  lemma DeleteIff(m: Catalogue, id: Bytes)
    ensures id != [] ==> Find(Apply(m, Delete(id)), id) == None
    ensures forall other | other != id || id == [] :: Find(Apply(m, Delete(id)), other) == Find(m, other)
    ensures WriteError(m, Delete(id)) == if id == [] then Some(Invalid) else if id in m then None else Some(NotFound)
  {}

  /** The first valid tenant set under `id`, from write `from` on. */
  function FirstSet(log: seq<Write>, id: Bytes, from: nat): Option<Tenant>
    decreases |log| - from
  {
    if from >= |log| then None
    else if log[from].Set? && log[from].tenant.id == id && ValidTenant(log[from].tenant) then Some(log[from].tenant)
    else FirstSet(log, id, from + 1)
  }

  lemma {:induction false} FirstSetSnoc(log: seq<Write>, w: Write, id: Bytes, from: nat)
    requires from <= |log|
    ensures FirstSet(log + [w], id, from)
            == if FirstSet(log, id, from).Some? then FirstSet(log, id, from)
               else if w.Set? && w.tenant.id == id && ValidTenant(w.tenant) then Some(w.tenant) else None
    decreases |log| - from
  {
    if from < |log| {
      FirstSetSnoc(log, w, id, from + 1);
    }
  }

  /** One more write that does not delete `id`, whatever was found before it. */
  lemma FindSnoc(start: Catalogue, log: seq<Write>, w: Write, id: Bytes)
    requires id != [] && w != Delete(id)
    ensures var was := Find(Replay(start, log), id);
            Find(Replay(start, log + [w]), id)
            == if was == None && w.Set? && w.tenant.id == id && ValidTenant(w.tenant) then Some(w.tenant) else was
  {
    hide Find, Apply, WriteError;
    assert (log + [w])[..|log|] == log;
    var m := Replay(start, log);
    match w
    case Set(t) => SetIff(m, t); FoundIff(m, id);
    case Delete(other) => DeleteIff(m, other);
  }

  lemma FoundIff(m: Catalogue, id: Bytes)
    ensures Find(m, id) == None <==> id !in m
  {}

  /** After the last deletion of an ID, a lookup answers with the first valid tenant set
      under it since, and with nothing if there is none. */
  lemma {:induction false} LookupSinceDelete(start: Catalogue, log: seq<Write>, id: Bytes, k: nat)
    requires k < |log| && log[k] == Delete(id) && id != [] && forall j | k < j < |log| :: log[j] != Delete(id)
    ensures Find(Replay(start, log), id) == FirstSet(log, id, k + 1)
    decreases |log|
  {
    hide Find, Apply, WriteError, ValidTenant;
    var n := |log| - 1;
    var before := log[..n];
    assert log == before + [log[n]];
    if k == n {
      DeleteIff(Replay(start, before), id);
    } else {
      LookupSinceDelete(start, before, id, k);
      FirstSetSnoc(before, log[n], id, k + 1);
      FindSnoc(start, before, log[n], id);
    }
  }

  /** An ID never deleted is found as it was at the start, or else as it was first set. */
  lemma {:induction false} LookupUndeleted(start: Catalogue, log: seq<Write>, id: Bytes)
    requires id != [] && forall j | 0 <= j < |log| :: log[j] != Delete(id)
    ensures Find(Replay(start, log), id) == if id in start then Some(start[id]) else FirstSet(log, id, 0)
    decreases |log|
  {
    hide Apply, WriteError, ValidTenant;
    if log != [] {
      var n := |log| - 1;
      var before := log[..n];
      assert log == before + [log[n]];
      LookupUndeleted(start, before, id);
      FirstSetSnoc(before, log[n], id, 0);
      FindSnoc(start, before, log[n], id);
    }
  }

  /** No history of writes leaves an invalid or misfiled tenant behind. */
  lemma {:induction false} ReplayIsConsistent(start: Catalogue, log: seq<Write>)
    requires Consistent(start)
    ensures Consistent(Replay(start, log))
    decreases |log|
  {
    if log != [] {
      ReplayIsConsistent(start, log[..|log| - 1]);
      ApplyKeepsConsistent(Replay(start, log[..|log| - 1]), log[|log| - 1]);
    }
  }

  /** A lookup answers with the last successful write about the ID. */
  lemma {:induction false} LookupFollowsHistory(start: Catalogue, log: seq<Write>, id: Bytes, i: nat)
    requires LastAbout(start, log, id, i)
    ensures Find(Replay(start, log), id) == if log[i].Set? then Some(log[i].tenant) else None
    decreases |log|
  {
    hide Find, WriteError, Apply;
    var n := |log| - 1;
    var before := log[..n];
    FindApply(Replay(start, before), log[n], id);
    if i < n {
      forall j: nat | j < n ensures before[..j] == log[..j] && before[j] == log[j] {}
      assert Succeeds(start, before, i);
      assert forall j: nat | i < j < n :: Succeeds(start, before, j) == Succeeds(start, log, j);
      LookupFollowsHistory(start, before, id, i);
    }
  }

  /** Or, without one, with what the catalogue started with. */
  lemma {:induction false} LookupWithoutHistory(start: Catalogue, log: seq<Write>, id: Bytes)
    requires forall i | 0 <= i < |log| :: About(log[i]) == id ==> !Succeeds(start, log, i)
    ensures Find(Replay(start, log), id) == Find(start, id)
    decreases |log|
  {
    hide Find, WriteError, Apply;
    if log != [] {
      var n := |log| - 1;
      var before := log[..n];
      FindApply(Replay(start, before), log[n], id);
      forall j: nat | j < n ensures before[..j] == log[..j] && before[j] == log[j] {}
      assert forall j: nat | j < n :: Succeeds(start, before, j) == Succeeds(start, log, j);
      LookupWithoutHistory(start, before, id);
    }
  }

  // --------------------------------------------------------------- The resolver

  /** What building a catalogue out of a list gives: the first bad tenant decides. */
  function Built(tenants: seq<Tenant>): (r: (Catalogue, Option<Error>))
    decreases |tenants|
  {
    if tenants == [] then (map[], None) else
      var (m, e) := Built(tenants[..|tenants| - 1]);
      var t := tenants[|tenants| - 1];
      if e.Some? then (m, e) else (Apply(m, Set(t)), WriteError(m, Set(t)))
  }

  ghost predicate Distinct(tenants: seq<Tenant>) {
    forall i, j | 0 <= i < j < |tenants| :: tenants[i].id != tenants[j].id
  }

  lemma DistinctSnoc(before: seq<Tenant>, t: Tenant)
    ensures Distinct(before + [t]) <==> Distinct(before) && forall u | u in before :: u.id != t.id
  {
    var all := before + [t];
    assert forall i | 0 <= i < |before| :: all[i] == before[i];
    if Distinct(all) {
      forall u | u in before ensures u.id != t.id {
        var i :| 0 <= i < |before| && before[i] == u;
        assert all[i].id != all[|before|].id;
      }
    }
  }

  /** The catalogue holds just the tenants of the list, each under its ID. */
  ghost predicate Holds(m: Catalogue, tenants: seq<Tenant>) {
    && (forall t | t in tenants :: Find(m, t.id) == Some(t))
    && (forall id | id in m :: m[id] in tenants)
  }

  /** A catalogue is built exactly from valid tenants with distinct IDs, and then it
      holds each of them under its ID and nothing else. */
  lemma {:induction false} BuiltIff(tenants: seq<Tenant>)
    ensures Consistent(Built(tenants).0)
    ensures Built(tenants).1 == None <==> (forall t | t in tenants :: ValidTenant(t)) && Distinct(tenants)
    ensures Built(tenants).1 == None ==> Holds(Built(tenants).0, tenants)
    decreases |tenants|
  {
    hide Distinct;
    if tenants == [] {
      DistinctEmpty();
    } else {
      var before, t := tenants[..|tenants| - 1], tenants[|tenants| - 1];
      BuiltIff(before);
      assert tenants == before + [t];
      DistinctSnoc(before, t);
      ApplyKeepsConsistent(Built(before).0, Set(t));
    }
  }

  lemma DistinctEmpty()
    ensures Distinct([])
  {}

  class MemoryResolver {
    var tenants: Catalogue

    ghost predicate Valid()
      reads this
    {
      Consistent(tenants)
    }

    /** An empty resolver, for `Load` to fill. */
    constructor ()
      ensures Valid() && tenants == map[]
    {
      tenants := map[];
    }

    /** newMemoryResolver: fill from a list, stopping at the first bad tenant. */
    method Load(list: seq<Tenant>) returns (error: Option<Error>)
      requires Valid() && tenants == map[]
      modifies this
      ensures Valid() && (tenants, error) == Built(list)
    {
      for i := 0 to |list|
        invariant Valid() && (tenants, None) == Built(list[..i])
      {
        assert list[..i + 1][..i] == list[..i];
        BuiltStops(list, i + 1);
        var t := list[i];
        if !ValidTenant(t) {
          return Some(Invalid);
        }
        if t.id in tenants {
          return Some(Duplicate);
        }
        tenants := tenants[t.id := t];
      }
      assert list[..|list|] == list;
      return None;
    }

    method Get(id: Bytes) returns (r: Option<Tenant>)
      ensures r == Find(tenants, id)
      ensures Valid() && r.Some? ==> ValidTenant(r.value) && r.value.id == id
    {
      if id in tenants {
        return Some(tenants[id]);
      }
      return None;
    }

    method SetTenant(t: Tenant) returns (error: Option<Error>)
      requires Valid()
      modifies this
      ensures Valid()
      ensures tenants == Apply(old(tenants), Set(t)) && error == WriteError(old(tenants), Set(t))
      ensures tenants == (if error == None then old(tenants)[t.id := t] else old(tenants))
      ensures error == None <==> t.id != [] && t.topicPrefix != [] && t.upstream != [] && t.id !in old(tenants)
    {
      if !ValidTenant(t) {
        return Some(Invalid);
      }
      if t.id in tenants {
        return Some(Duplicate);
      }
      tenants := tenants[t.id := t];
      return None;
    }

    method DeleteTenant(id: Bytes) returns (error: Option<Error>)
      requires Valid()
      modifies this
      ensures Valid()
      ensures tenants == Apply(old(tenants), Delete(id)) && error == WriteError(old(tenants), Delete(id))
      ensures tenants == (if id == [] then old(tenants) else old(tenants) - {id})
      ensures error == None <==> id != [] && id in old(tenants)
    {
      if id == [] {
        return Some(Invalid);
      }
      if id !in tenants {
        return Some(NotFound);
      }
      tenants := tenants - {id};
      return None;
    }
  }

  /** The first bad tenant decides: nothing after it is looked at. */
  lemma {:induction false} BuiltStops(list: seq<Tenant>, i: nat)
    requires i <= |list|
    ensures Built(list[..i]).1.Some? ==> Built(list) == Built(list[..i])
    decreases |list|
  {
    if i < |list| {
      BuiltStops(list[..|list| - 1], i);
      assert list[..|list| - 1][..i] == list[..i];
    } else {
      assert list[..i] == list;
    }
  }
}
