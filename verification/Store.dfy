/** A store keyed by opaque names, listed in insertion order, and the slice of it
    that one tenant can see. */
module Store {
  import opened Bytes
  import opened Prefix

  type Store<V> = seq<(Bytes, V)>

  function Lookup<V>(s: Store<V>, k: Bytes): Option<V> {
    if s == [] then None else if s[0].0 == k then Some(s[0].1) else Lookup(s[1..], k)
  }

  function Put<V>(s: Store<V>, k: Bytes, v: V): Store<V> {
    if s == [] then [(k, v)]
    else if s[0].0 == k then [(k, v)] + s[1..]
    else [s[0]] + Put(s[1..], k, v)
  }

  function Remove<V>(s: Store<V>, k: Bytes): Store<V> {
    if s == [] then []
    else if s[0].0 == k then Remove(s[1..], k)
    else [s[0]] + Remove(s[1..], k)
  }

  /** Store `v` under `k`, or forget `k` when there is no `v`. */
  function Update<V>(s: Store<V>, k: Bytes, v: Option<V>): Store<V> {
    match v
    case None => Remove(s, k)
    case Some(w) => Put(s, k, w)
  }

  function MapOption<V, W>(f: V -> W, v: Option<V>): Option<W> {
    match v
    case None => None
    case Some(w) => Some(f(w))
  }

  /** The entries that belong to the tenant, with stripped names and `f` applied to
      their values, in the order of the store. */
  function View<V, W>(prefix: Bytes, f: V -> W, s: Store<V>): Store<W> {
    if s == [] then []
    else (if BelongsToTenant(prefix, s[0].0) then [(StripOut(prefix, s[0].0), f(s[0].1))] else [])
         + View(prefix, f, s[1..])
  }

  /** Stripping keeps a tenant's own keys apart. */
  lemma StripIsInjective(prefix: Bytes, key: Bytes, other: Bytes)
    requires BelongsToTenant(prefix, key) && BelongsToTenant(prefix, other)
    ensures StripOut(prefix, key) == StripOut(prefix, other) <==> key == other
  {
    assert key == prefix + key[|prefix|..];
    assert other == prefix + other[|prefix|..];
  }

  /** Looking a tenant's own key up in its view is looking it up in the store. */
  lemma {:induction false} LookupView<V, W>(prefix: Bytes, f: V -> W, s: Store<V>, key: Bytes)
    requires BelongsToTenant(prefix, key)
    ensures Lookup(View(prefix, f, s), StripOut(prefix, key)) == MapOption(f, Lookup(s, key))
  {
    if s != [] {
      LookupView(prefix, f, s[1..], key);
      if BelongsToTenant(prefix, s[0].0) {
        StripIsInjective(prefix, s[0].0, key);
        assert View(prefix, f, s)[1..] == View(prefix, f, s[1..]);
      } else {
        assert View(prefix, f, s) == View(prefix, f, s[1..]);
      }
    }
  }

  /** Updating under an own key updates the view under the stripped key. */
  lemma {:induction false} ViewUpdateOwn<V, W>(prefix: Bytes, f: V -> W, s: Store<V>, key: Bytes, v: Option<V>)
    requires BelongsToTenant(prefix, key)
    ensures View(prefix, f, Update(s, key, v))
            == Update(View(prefix, f, s), StripOut(prefix, key), MapOption(f, v))
  {
    if s == [] {
      if v.Some? { assert [(key, v.value)][1..] == []; }
    } else {
      ViewUpdateOwn(prefix, f, s[1..], key, v);
      ViewOfUpdate(prefix, f, s, key, v);
      if BelongsToTenant(prefix, s[0].0) {
        StripIsInjective(prefix, s[0].0, key);
        assert View(prefix, f, s)[1..] == View(prefix, f, s[1..]);
      } else {
        assert View(prefix, f, s) == View(prefix, f, s[1..]);
      }
    }
  }

  /** The view of an update, one entry at a time. */
  lemma ViewOfUpdate<V, W>(prefix: Bytes, f: V -> W, s: Store<V>, key: Bytes, v: Option<V>)
    requires s != []
    ensures s[0].0 != key ==>
      View(prefix, f, Update(s, key, v)) == View(prefix, f, s[..1]) + View(prefix, f, Update(s[1..], key, v))
    ensures s[0].0 == key && v.Some? ==>
      View(prefix, f, Update(s, key, v)) == View(prefix, f, [(key, v.value)]) + View(prefix, f, s[1..])
    ensures s[0].0 == key && v.None? ==>
      View(prefix, f, Update(s, key, v)) == View(prefix, f, Update(s[1..], key, v))
  {
    var rest := Update(s[1..], key, v);
    assert ([s[0]] + rest)[1..] == rest;
    assert s[..1][1..] == [];
    if v.Some? {
      assert ([(key, v.value)] + s[1..])[1..] == s[1..];
      assert [(key, v.value)][1..] == [];
    }
  }

  lemma {:induction false} ViewUpdateForeign<V, W>(prefix: Bytes, f: V -> W, s: Store<V>, key: Bytes, v: Option<V>)
    requires !BelongsToTenant(prefix, key)
    ensures View(prefix, f, Update(s, key, v)) == View(prefix, f, s)
  {
    if s != [] {
      ViewUpdateForeign(prefix, f, s[1..], key, v);
      ViewOfUpdate(prefix, f, s, key, v);
      assert s[..1][1..] == [];
    }
  }

  /** An update adds no entry but its own. */
  lemma {:induction false} UpdateEntries<V(!new)>(s: Store<V>, key: Bytes, v: Option<V>)
    ensures forall x | x in Update(s, key, v) :: x in s || (v.Some? && x == (key, v.value))
  {
    if s != [] {
      UpdateEntries(s[1..], key, v);
      assert s == [s[0]] + s[1..];
    }
  }

  lemma {:induction false} LookupUpdate<V>(s: Store<V>, key: Bytes, v: Option<V>, other: Bytes)
    ensures Lookup(Update(s, key, v), other) == if other == key then v else Lookup(s, other)
  {
    if s != [] {
      LookupUpdate(s[1..], key, v, other);
    }
  }

  /** A view is no longer than the store, and shorter if it leaves an entry out. */
  lemma {:induction false} ViewShrinks<V, W>(prefix: Bytes, f: V -> W, s: Store<V>)
    ensures |View(prefix, f, s)| <= |s|
    ensures |View(prefix, f, s)| == |s| ==> forall i | 0 <= i < |s| :: BelongsToTenant(prefix, s[i].0)
  {
    if s != [] {
      ViewShrinks(prefix, f, s[1..]);
    }
  }

  /** The view of a store that is the tenant's throughout. */
  lemma {:induction false} ViewAllOwn<V, W>(prefix: Bytes, f: V -> W, s: Store<V>)
    requires forall x | x in s :: BelongsToTenant(prefix, x.0)
    ensures |View(prefix, f, s)| == |s|
    ensures forall i | 0 <= i < |s| :: View(prefix, f, s)[i] == (StripOut(prefix, s[i].0), f(s[i].1))
  {
    if s != [] {
      assert s[0] in s;
      ViewAllOwn(prefix, f, s[1..]);
    }
  }
}
