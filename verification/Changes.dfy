/** Changes to a key-value store: layered, listed in any order, and applied one by one. */
module Changes {
  import opened Primitives

  type Key = Bytes
  type Value = Bytes
  type Store = map<Key, Value>
  /** New values, or deletions, by key. */
  type Delta = map<Key, Option<Value>>
  /** Changes in the order they are applied in. */
  type Transaction = seq<(Key, Option<Value>)>

  /** The store with the changes made. */
  function Patched(store: Store, delta: Delta): Store {
    map k | k in store.Keys + delta.Keys && (k in delta ==> delta[k].Some?) ::
      if k in delta then delta[k].value else store[k]
  }

  function Lookup(store: Store, k: Key): Option<Value> {
    if k in store then Some(store[k]) else None
  }

  lemma PatchedAt(store: Store, delta: Delta, k: Key)
    ensures Lookup(Patched(store, delta), k) == if k in delta then delta[k] else Lookup(store, k)
  {
  }

  lemma SameLookups(a: Store, b: Store)
    requires forall k :: Lookup(a, k) == Lookup(b, k)
    ensures a == b
  {
    forall k ensures k in a <==> k in b
             ensures k in a ==> a[k] == b[k] {
      assert Lookup(a, k) == Lookup(b, k);
    }
  }

  /** One change made. */
  function Placed(store: Store, k: Key, v: Option<Value>): Store {
    match v
    case Some(x) => store[k := x]
    case None => store - {k}
  }

  /** The change is made at its key and nowhere else. */
  lemma PlacedAt(store: Store, k: Key, v: Option<Value>, x: Key)
    ensures Lookup(Placed(store, k, v), x) == if x == k then v else Lookup(store, x)
  {
  }

  lemma PatchedOnce(store: Store, delta: Delta, k: Key, v: Option<Value>)
    ensures Patched(store, delta[k := v]) == Placed(Patched(store, delta), k, v)
  {
    var a, b := Patched(store, delta[k := v]), Placed(Patched(store, delta), k, v);
    forall x ensures Lookup(a, x) == Lookup(b, x) {
      PatchedAt(store, delta[k := v], x);
      PatchedAt(store, delta, x);
    }
    SameLookups(a, b);
  }

  /** Dropping a layer of changes goes unnoticed exactly when it changed nothing. */
  lemma LayerIsIdleIff(store: Store, committed: Delta, prospective: Delta)
    ensures Patched(store, committed) == Patched(store, committed + prospective)
       <==> forall k :: k in prospective ==> prospective[k] == Lookup(Patched(store, committed), k)
  {
    var a, b := Patched(store, committed), Patched(store, committed + prospective);
    forall k ensures Lookup(b, k) == if k in prospective then prospective[k] else Lookup(a, k) {
      PatchedAt(store, committed, k);
      PatchedAt(store, committed + prospective, k);
    }
    if forall k :: k in prospective ==> prospective[k] == Lookup(a, k) {
      SameLookups(a, b);
    }
  }

  // ---------- Transactions ----------

  /** The changes a list amounts to: the last entry for a key counts. */
  function Net(tx: Transaction): Delta {
    if tx == [] then map[] else Net(tx[..|tx| - 1])[tx[|tx| - 1].0 := tx[|tx| - 1].1]
  }

  lemma {:induction false} NetConcat(a: Transaction, b: Transaction)
    ensures Net(a + b) == Net(a) + Net(b)
  {
    if b == [] {
      assert a + b == a;
    } else {
      NetConcat(a, b[..|b| - 1]);
      assert (a + b)[..|a + b| - 1] == a + b[..|b| - 1];
    }
  }

  /** The entries of a hash map, in whatever order it gives them. */
  method Entries(delta: Delta) returns (tx: Transaction)
    ensures Net(tx) == delta && |tx| == |delta|
  {
    tx := [];
    var rest := delta.Keys;
    while rest != {}
      invariant rest <= delta.Keys && |tx| + |rest| == |delta.Keys|
      invariant Net(tx) == map k | k in delta.Keys - rest :: delta[k]
      decreases |rest|
    {
      var k :| k in rest;
      assert (tx + [(k, delta[k])])[..|tx|] == tx;
      tx, rest := tx + [(k, delta[k])], rest - {k};
    }
    assert |delta.Keys| == |delta|;
  }

  /** The in-memory backend: a copy of the store with a transaction applied. */
  method Update(store: Store, tx: Transaction) returns (inner: Store)
    ensures inner == Patched(store, Net(tx))
  {
    inner := store;
    for i := 0 to |tx|
      invariant inner == Patched(store, Net(tx[..i]))
    {
      var key, val := tx[i].0, tx[i].1;
      assert tx[..i + 1][..i] == tx[..i];
      PatchedOnce(store, Net(tx[..i]), key, val);
      match val {
        case Some(v) => inner := inner[key := v];
        case None => inner := inner - {key};
      }
    }
    assert tx[..|tx|] == tx;
  }

  /** The pairs that the in-memory backend hashes: its own, then the changes, deletions left out. */
  method PairsWith(store: Store, tx: Transaction) returns (pairs: Store)
    ensures pairs == Patched(store, Net(tx))
  {
    var all: map<Key, Option<Value>> := map k | k in store :: Some(store[k]);
    ghost var existing := all;
    for i := 0 to |tx|
      invariant all == existing + Net(tx[..i])
    {
      assert tx[..i + 1][..i] == tx[..i];
      all := all[tx[i].0 := tx[i].1];
    }
    assert tx[..|tx|] == tx;
    pairs := map k | k in all && all[k].Some? :: all[k].value;
  }
}
