/** The prefix algebra of rewrite/rewrite.go: what a tenant prefix does to one
    name, and exactly when two tenants cannot reach each other's names. */
module Prefix {
  import opened Bytes

  function PrefixIn(prefix: Bytes, name: Bytes): Bytes {
    if prefix == [] || name == [] then name else prefix + name
  }

  function PrefixInPtr(prefix: Bytes, name: Option<Bytes>): Option<Bytes> {
    if name == None || name.value == [] || prefix == [] then name else Some(prefix + name.value)
  }

  function StripOut(prefix: Bytes, name: Bytes): Bytes {
    if prefix == [] then name else if prefix <= name then name[|prefix|..] else name
  }

  function StripOutPtr(prefix: Bytes, name: Option<Bytes>): Option<Bytes> {
    if name == None || prefix == [] then name else Some(StripOut(prefix, name.value))
  }

  predicate BelongsToTenant(prefix: Bytes, name: Bytes) {
    prefix == [] || prefix <= name
  }

  /** Neither prefix is a prefix of the other. */
  predicate Incomparable(p: Bytes, q: Bytes) {
    !(p <= q) && !(q <= p)
  }

  /** The proxy hands back the name the client used, for every prefix and name. */
  lemma StripUndoesPrefix(prefix: Bytes, name: Bytes)
    ensures StripOut(prefix, PrefixIn(prefix, name)) == name
    ensures StripOutPtr(prefix, PrefixInPtr(prefix, Some(name))) == Some(name)
  {
    if prefix != [] && name != [] {
      assert (prefix + name)[|prefix|..] == name;
    } else if prefix != [] {
      assert !(prefix <= name);
    }
  }

  /** The other composition is the identity on a tenant's own names only. */
  lemma PrefixUndoesStripIff(prefix: Bytes, name: Bytes)
    ensures PrefixIn(prefix, StripOut(prefix, name)) == name
            <==> prefix == [] || name == [] || (BelongsToTenant(prefix, name) && name != prefix)
  {
    if prefix != [] && prefix <= name {
      assert prefix + name[|prefix|..] == name;
    } else if prefix != [] && name != [] {
      assert (prefix + name)[..|prefix|] == prefix;
    }
  }

  /** Which of `q`'s upstream names the tenant with prefix `p` owns. */
  lemma VisibleIff(p: Bytes, q: Bytes, name: Bytes)
    requires name != []
    ensures BelongsToTenant(p, PrefixIn(q, name)) <==> p <= q || (q <= p && p[|q|..] <= name)
  {
    var full := q + name;
    if |p| <= |q| {
      assert full[..|p|] == q[..|p|];
    } else {
      assert full[..|q|] == q;
      assert full[|q|..] == name;
      assert p == p[..|q|] + p[|q|..];
    }
  }

  /** No upstream name of `q` belongs to an incomparable `p`. */
  lemma ForeignNameIsNotOwn(p: Bytes, q: Bytes, name: Bytes)
    requires Incomparable(p, q)
    ensures !BelongsToTenant(p, PrefixIn(q, name))
  {
    if name != [] {
      VisibleIff(p, q, name);
    }
  }

  ghost predicate ImagesDisjoint(p: Bytes, q: Bytes) {
    forall a, b | a != [] && b != [] :: PrefixIn(p, a) != PrefixIn(q, b)
  }

  /** Two tenants' upstream names are disjoint exactly when neither prefix is a
      prefix of the other; the resolver does not check this. */
  lemma IsolationIff(p: Bytes, q: Bytes)
    ensures ImagesDisjoint(p, q) <==> Incomparable(p, q)
  {
    if Incomparable(p, q) {
      forall a, b | a != [] && b != [] ensures PrefixIn(p, a) != PrefixIn(q, b) {
        ForeignNameIsNotOwn(p, q, b);
        assert p <= PrefixIn(p, a);
      }
    } else if p <= q {
      var a, b := CollisionWhenPrefix(p, q);
    } else {
      var a, b := CollisionWhenPrefix(q, p);
      assert PrefixIn(p, b) == PrefixIn(q, a);
    }
  }

  /** What isolated tenants still share is the empty name, and nothing else. */
  lemma SharedNameIff(p: Bytes, q: Bytes, a: Bytes, b: Bytes)
    requires Incomparable(p, q)
    ensures PrefixIn(p, a) == PrefixIn(q, b) <==> a == [] && b == []
  {
    IsolationIff(p, q);
    assert a != [] ==> |PrefixIn(p, a)| > 0;
    assert b != [] ==> |PrefixIn(q, b)| > 0;
  }

  /** A shorter prefix can spell every name of a longer one. */
  lemma CollisionWhenPrefix(p: Bytes, q: Bytes) returns (a: Bytes, b: Bytes)
    requires p <= q
    ensures a != [] && b != [] && PrefixIn(p, a) == PrefixIn(q, b)
  {
    b := [0];
    a := q[|p|..] + b;
    assert p + a == q + b;
  }
}
