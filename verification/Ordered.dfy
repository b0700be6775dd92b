/** The keys of an ordered map, in ascending order. */
module Ordered {
  import opened Primitives

  ghost predicate Ascends(s: seq<nat>) {
    forall i, j :: 0 <= i < j < |s| ==> s[i] < s[j]
  }

  method Least(keys: set<nat>) returns (k: nat)
    requires keys != {}
    ensures k in keys && forall j :: j in keys ==> k <= j
  {
    k :| k in keys;
    var rest := keys;
    while rest != {}
      invariant rest <= keys && k in keys && forall j :: j in keys && j !in rest ==> k <= j
      decreases |rest|
    {
      var x :| x in rest;
      if x < k {
        k := x;
      }
      rest := rest - {x};
    }
  }

  method Ascending(keys: set<nat>) returns (s: seq<nat>)
    ensures Elems(s) == keys && |s| == |keys| && Ascends(s)
  {
    s := [];
    var rest := keys;
    while rest != {}
      invariant rest <= keys && Listed(keys - rest, s) && |s| == |keys| - |rest|
      invariant forall x, k :: x in s && k in rest ==> x < k
      decreases |rest|
    {
      var k := Least(rest);
      ListedNext(keys - rest, s, k);
      assert keys - (rest - {k}) == keys - rest + {k};
      s, rest := s + [k], rest - {k};
    }
    assert keys - {} == keys;
  }

  ghost predicate Listed(keys: set<nat>, s: seq<nat>) {
    Elems(s) == keys && Ascends(s)
  }

  lemma ListedNext(keys: set<nat>, s: seq<nat>, k: nat)
    requires Listed(keys, s) && forall x :: x in s ==> x < k
    ensures Listed(keys + {k}, s + [k])
  {
    assert Elems(s + [k]) == Elems(s) + {k};
    assert forall i :: 0 <= i < |s| ==> s[i] in s && (s + [k])[i] == s[i];
  }
}
