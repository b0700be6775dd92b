/** Merging the egress queues of the parachains into one ingress list. */
module Ingress {
  import opened Primitives

  type Id = nat
  type Queue(==, !new)

  /** Minus the distance from the newest queue, then the parachain. */
  type Key = (int, Id)

  predicate Before(a: Key, b: Key) {
    a.0 < b.0 || (a.0 == b.0 && a.1 < b.1)
  }

  // ---------- What the list is ----------

  /** The key of a queue that is there. */
  ghost predicate Waits(egress: map<Id, seq<Queue>>, k: Key) {
    k.1 in egress && 0 < |egress[k.1]| + k.0 && k.0 <= 0
  }

  ghost function QueueAt(egress: map<Id, seq<Queue>>, k: Key): Queue
    requires Waits(egress, k)
  {
    egress[k.1][|egress[k.1]| - 1 + k.0]
  }

  /** Most distant first, and at the same distance by parachain. */
  ghost predicate Sorted(keys: seq<Key>) {
    forall i, j :: 0 <= i < j < |keys| ==> keys[i].0 < keys[j].0 || (keys[i].0 == keys[j].0 && keys[i].1 < keys[j].1)
  }

  /** The ingress: every waiting queue once, the most distant first, and parachains in order. */
  ghost predicate IsIngress(egress: map<Id, seq<Queue>>, keys: seq<Key>, r: seq<(Id, Queue)>) {
    && Sorted(keys) && |r| == |keys|
    && (forall k :: k in keys <==> Waits(egress, k))
    && (forall i :: 0 <= i < |r| ==> r[i] == (keys[i].1, QueueAt(egress, keys[i])))
  }

  /** There is only one such list. */
  lemma IngressIsUnique(egress: map<Id, seq<Queue>>, keys: seq<Key>, r: seq<(Id, Queue)>, keys': seq<Key>, r': seq<(Id, Queue)>)
    requires IsIngress(egress, keys, r) && IsIngress(egress, keys', r')
    ensures keys == keys' && r == r'
  {
    SortedIsUnique(keys, keys');
  }

  lemma {:induction false} SortedIsUnique(s: seq<Key>, s': seq<Key>)
    requires Sorted(s) && Sorted(s') && forall k :: k in s <==> k in s'
    ensures s == s'
    decreases |s|
  {
    if s == [] {
      assert forall i :: 0 <= i < |s'| ==> s'[i] in s';
    } else {
      assert s[|s| - 1] in s';
      var init, init', last, last' := s[..|s| - 1], s'[..|s'| - 1], s[|s| - 1], s'[|s'| - 1];
      assert last' in s;
      assert last == last' by {
        var i :| 0 <= i < |s| && s[i] == last';
        var j :| 0 <= j < |s'| && s'[j] == last;
      }
      forall k ensures k in init <==> k in init' {
        InitOf(s, k);
        InitOf(s', k);
      }
      SortedIsUnique(init, init');
      assert s == init + [last] && s' == init' + [last'];
    }
  }

  lemma InitOf(s: seq<Key>, k: Key)
    requires s != [] && Sorted(s)
    ensures k in s[..|s| - 1] <==> k in s && k != s[|s| - 1]
  {
    var init := s[..|s| - 1];
    if k in s && k != s[|s| - 1] {
      var i :| 0 <= i < |s| && s[i] == k;
      assert init[i] == k;
    }
    if k in init {
      var i :| 0 <= i < |init| && init[i] == k;
      assert s[i] == k && Before(s[i], s[|s| - 1]);
    }
  }

  /** One parachain's queues keep their order, the oldest first. */
  lemma OldestFirst(egress: map<Id, seq<Queue>>, keys: seq<Key>, r: seq<(Id, Queue)>, i: nat, j: nat)
    requires IsIngress(egress, keys, r) && i < j < |r| && r[i].0 == r[j].0
    ensures r[i].0 in egress
    ensures exists a, b :: 0 <= a < b < |egress[r[i].0]| && r[i].1 == egress[r[i].0][a] && r[j].1 == egress[r[i].0][b]
  {
    assert Before(keys[i], keys[j]) && keys[i] in keys && keys[j] in keys;
    var n := |egress[r[i].0]|;
    assert r[i].1 == egress[r[i].0][n - 1 + keys[i].0] && r[j].1 == egress[r[i].0][n - 1 + keys[j].0];
  }

  // ---------- Merging ----------

  /** The fetches in `done` have been merged. */
  ghost predicate Merged(egress: map<Id, seq<Queue>>, done: set<Id>, m: map<Key, Queue>) {
    && (forall k :: k in m <==> Waits(egress, k) && k.1 in done)
    && (forall k :: k in m ==> Waits(egress, k) && m[k] == QueueAt(egress, k))
  }

  /** A fetch completes: its queues enter the ordered map, the newest at depth zero. */
  method Merge(egress: map<Id, seq<Queue>>, m: map<Key, Queue>, id: Id, ghost done: set<Id>) returns (m': map<Key, Queue>)
    requires id in egress && Merged(egress, done, m)
    ensures Merged(egress, done + {id}, m')
  {
    m' := m;
    var queues := egress[id];
    for depth := 0 to |queues|
      invariant forall k :: k in m' <==> Waits(egress, k) && (k.1 in done || (k.1 == id && -depth < k.0))
      invariant forall k :: k in m' ==> Waits(egress, k) && m'[k] == QueueAt(egress, k)
    {
      m' := m'[(-depth, id) := queues[|queues| - 1 - depth]];
    }
  }

  method LeastKey(keys: set<Key>) returns (k: Key)
    requires keys != {}
    ensures k in keys && forall x :: x in keys && x != k ==> Before(k, x)
  {
    k :| k in keys;
    var rest := keys;
    while rest != {}
      invariant rest <= keys && k in keys && forall x :: x in keys && x !in rest && x != k ==> Before(k, x)
      decreases |rest|
    {
      var x :| x in rest;
      if Before(x, k) {
        k := x;
      }
      rest := rest - {x};
    }
  }

  ghost predicate Drawn(m: map<Key, Queue>, rest: set<Key>, keys: seq<Key>, r: seq<(Id, Queue)>) {
    && rest <= m.Keys && Sorted(keys) && |r| == |keys|
    && (forall k :: k in keys <==> k in m && k !in rest)
    && (forall k, x :: k in keys && x in rest ==> Before(k, x))
    && (forall i :: 0 <= i < |r| ==> keys[i] in m && r[i] == (keys[i].1, m[keys[i]]))
  }

  lemma DrawNext(m: map<Key, Queue>, rest: set<Key>, keys: seq<Key>, r: seq<(Id, Queue)>, k: Key)
    requires Drawn(m, rest, keys, r) && k in rest && forall x :: x in rest && x != k ==> Before(k, x)
    ensures Drawn(m, rest - {k}, keys + [k], r + [(k.1, m[k])])
  {
    forall i | 0 <= i < |keys| ensures Before(keys[i], k) {
      assert keys[i] in keys;
    }
  }

  /** The entries of an ordered map, in order. */
  method InOrder(m: map<Key, Queue>) returns (r: seq<(Id, Queue)>, ghost keys: seq<Key>)
    ensures |r| == |keys| && Drawn(m, {}, keys, r)
  {
    r, keys := [], [];
    var rest := m.Keys;
    while rest != {}
      invariant Drawn(m, rest, keys, r)
      decreases |rest|
    {
      var k := LeastKey(rest);
      DrawNext(m, rest, keys, r, k);
      r, keys := r + [(k.1, m[k])], keys + [k];
      rest := rest - {k};
    }
  }

  /** Merge the queues of all parachains, whose fetches complete in some order. */
  method CollateIngress(egress: map<Id, seq<Queue>>, order: seq<Id>) returns (r: seq<(Id, Queue)>)
    requires Elems(order) == egress.Keys
    ensures exists keys :: IsIngress(egress, keys, r)
  {
    var m: map<Key, Queue> := map[];
    for i := 0 to |order|
      invariant Merged(egress, Elems(order[..i]), m)
    {
      assert order[i] in Elems(order);
      assert Elems(order[..i + 1]) == Elems(order[..i]) + {order[i]};
      m := Merge(egress, m, order[i], Elems(order[..i]));
    }
    assert order[..|order|] == order;
    ghost var keys;
    r, keys := InOrder(m);
    assert IsIngress(egress, keys, r);
  }
}
