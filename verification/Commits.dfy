/** Change sets, commit sets and the backing database they are applied to. */
module Commits {
  import opened Primitives

  type BlockHash = H256
  type Key = H256
  type DBValue = Bytes

  datatype ChangeSet<K, V> = ChangeSet(inserted: seq<(K, V)>, deleted: seq<K>)

  /** One journal entry of the finalization window. */
  datatype BlockRecord = BlockRecord(hash: BlockHash, parent: BlockHash,
                                     inserted: seq<(Key, DBValue)>, deleted: seq<Key>)

  /** One journal entry of the pruning window. */
  datatype DeathRecord = DeathRecord(hash: BlockHash, inserted: seq<Key>, deleted: seq<Key>)

  /** The four families of metadata keys; MetaStore gives their bytes. */
  datatype MetaKey =
    | LastFinalized
    | LastPruned
    | BlockJournal(block: nat, index: nat)
    | DeathJournal(block: nat)

  datatype MetaValue =
    | FinalizedAt(hash: BlockHash, number: nat)
    | PrunedAt(number: nat)
    | Journaled(block: BlockRecord)
    | Condemned(death: DeathRecord)

  type Meta = map<MetaKey, MetaValue>

  datatype CommitSet = CommitSet(data: ChangeSet<Key, DBValue>, meta: ChangeSet<MetaKey, MetaValue>)

  const EMPTY_COMMIT: CommitSet := CommitSet(ChangeSet([], []), ChangeSet([], []))

  /** The map a list of pairs collects into: later pairs win. */
  function Collect<K, V>(pairs: seq<(K, V)>): map<K, V> {
    if pairs == [] then map[]
    else
      var last := |pairs| - 1;
      Collect(pairs[..last])[pairs[last].0 := pairs[last].1]
  }

  /** What a database holds after a change set: insertions first, then deletions. */
  function Applied<K, V>(m: map<K, V>, c: ChangeSet<K, V>): (r: map<K, V>)
    ensures r.Keys == m.Keys + Collect(c.inserted).Keys - Elems(c.deleted)
  {
    (m + Collect(c.inserted)) - Elems(c.deleted)
  }

  lemma CollectAppend<K, V>(pairs: seq<(K, V)>, k: K, v: V)
    ensures Collect(pairs + [(k, v)]) == Collect(pairs)[k := v]
  {
    assert (pairs + [(k, v)])[..|pairs|] == pairs;
  }

  lemma {:induction false} CollectKeys<K, V>(pairs: seq<(K, V)>)
    ensures Collect(pairs).Keys == set i | 0 <= i < |pairs| :: pairs[i].0
  {
    if pairs != [] {
      var last := |pairs| - 1;
      CollectKeys(pairs[..last]);
      assert (set i | 0 <= i < |pairs| :: pairs[i].0) == (set i | 0 <= i < last :: pairs[..last][i].0) + {pairs[last].0};
    }
  }

  lemma {:induction false} CollectConcat<K, V>(a: seq<(K, V)>, b: seq<(K, V)>)
    ensures Collect(a + b) == Collect(a) + Collect(b)
  {
    if b == [] {
      assert a + b == a;
    } else {
      var init, last := b[..|b| - 1], b[|b| - 1];
      CollectConcat(a, init);
      assert a + b == (a + init) + [last];
      CollectAppend(a + init, last.0, last.1);
    }
  }

  lemma CollectOne<K, V>(k: K, v: V)
    ensures Collect([(k, v)]) == map[k := v]
  {
    assert [] + [(k, v)] == [(k, v)];
    CollectAppend([], k, v);
  }

  /** What a database holds at one key after a change set. */
  lemma AppliedAt<K, V>(m: map<K, V>, c: ChangeSet<K, V>, k: K)
    ensures k in Applied(m, c) <==> k !in c.deleted && (k in m || k in Collect(c.inserted))
    ensures k in Applied(m, c) ==> Applied(m, c)[k] == if k in Collect(c.inserted) then Collect(c.inserted)[k] else m[k]
  {
  }

  lemma AppliedOne<K, V>(m: map<K, V>, k: K, v: V)
    ensures Applied(m, ChangeSet([(k, v)], [])) == m[k := v]
  {
    assert [] + [(k, v)] == [(k, v)];
    CollectAppend([], k, v);
  }

  lemma AppliedTwo<K, V>(m: map<K, V>, a: (K, V), b: (K, V))
    ensures Applied(m, ChangeSet([a] + [b], [])) == m[a.0 := a.1][b.0 := b.1]
  {
    assert [] + [a] == [a];
    CollectAppend([], a.0, a.1);
    CollectAppend([a], b.0, b.1);
  }

  lemma MinusUnion<K, V>(m: map<K, V>, a: set<K>, b: set<K>)
    ensures m - a - b == m - (a + b)
  {
  }

  lemma ElemsAppend<T>(s: seq<T>, t: seq<T>)
    ensures Elems(s + t) == Elems(s) + Elems(t)
  {
  }

  /** Drains a hash map into a list, in whatever order the map iterates. */
  method Drain<K(==), V>(m: map<K, V>) returns (pairs: seq<(K, V)>)
    ensures Collect(pairs) == m
    ensures |pairs| == |m|
  {
    pairs := [];
    var rest := m;
    while rest.Keys != {}
      invariant rest.Keys <= m.Keys
      invariant forall k :: k in rest ==> rest[k] == m[k]
      invariant Collect(pairs) == m - rest.Keys
      invariant |pairs| + |rest| == |m|
      decreases |rest|
    {
      var k :| k in rest.Keys;
      CollectAppend(pairs, k, rest[k]);
      var rest' := rest - {k};
      assert rest'.Keys == rest.Keys - {k};
      assert m - rest'.Keys == (m - rest.Keys)[k := rest[k]];
      pairs := pairs + [(k, rest[k])];
      rest := rest';
    }
    assert m - {} == m;
  }

  /** Drains a hash set into a list. */
  method DrainSet<T(==)>(s: set<T>) returns (list: seq<T>)
    ensures Elems(list) == s
    ensures |list| == |s|
  {
    list := [];
    var rest := s;
    while rest != {}
      invariant rest <= s
      invariant Elems(list) == s - rest
      invariant |list| + |rest| == |s|
      decreases |rest|
    {
      var x :| x in rest;
      ElemsAppend(list, [x]);
      assert Elems([x]) == {x};
      list := list + [x];
      rest := rest - {x};
    }
  }

  class TestDb {
    var data: map<Key, DBValue>
    var meta: Meta

    constructor (data: map<Key, DBValue>)
      ensures this.data == data && meta == map[]
    {
      this.data := data;
      meta := map[];
    }

    method Commit(commit: CommitSet)
      modifies this
      ensures data == Applied(old(data), commit.data)
      ensures meta == Applied(old(meta), commit.meta)
    {
      data := ApplyChanges(data, commit.data);
      meta := ApplyChanges(meta, commit.meta);
    }

    static method ApplyChanges<K(==), V>(m: map<K, V>, c: ChangeSet<K, V>) returns (r: map<K, V>)
      ensures r == Applied(m, c)
    {
      r := Extend(m, c.inserted);
      r := RemoveAll(r, c.deleted);
    }

    static method Extend<K(==), V>(m: map<K, V>, pairs: seq<(K, V)>) returns (r: map<K, V>)
      ensures r == m + Collect(pairs)
    {
      r := m;
      for i := 0 to |pairs|
        invariant r == m + Collect(pairs[..i])
      {
        var (k, v) := pairs[i];
        assert pairs[..i + 1] == pairs[..i] + [(k, v)];
        CollectAppend(pairs[..i], k, v);
        r := r[k := v];
      }
      assert pairs[..|pairs|] == pairs;
    }

    static method RemoveAll<K(==), V>(m: map<K, V>, keys: seq<K>) returns (r: map<K, V>)
      ensures r == m - Elems(keys)
    {
      r := m;
      for i := 0 to |keys|
        invariant r == m - Elems(keys[..i])
      {
        assert keys[..i + 1] == keys[..i] + [keys[i]];
        assert Elems(keys[..i + 1]) == Elems(keys[..i]) + {keys[i]};
        r := r - {keys[i]};
      }
      assert keys[..|keys|] == keys;
    }
  }
}
