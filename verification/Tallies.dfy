/** Counting the elements of a list by some attribute. */
module Tallies {
  /** How many elements of `s` have the value `k` of the attribute `f`. */
  function Tally<T, K(==)>(f: T -> K, s: seq<T>, k: K): nat {
    if s == [] then 0 else Tally(f, s[..|s| - 1], k) + (if f(s[|s| - 1]) == k then 1 else 0)
  }

  lemma {:induction false} TallyConcat<T, K>(f: T -> K, a: seq<T>, b: seq<T>, k: K)
    ensures Tally(f, a + b, k) == Tally(f, a, k) + Tally(f, b, k)
  {
    if b == [] {
      assert a + b == a;
    } else {
      TallyConcat(f, a, b[..|b| - 1], k);
      assert (a + b)[..|a + b| - 1] == a + b[..|b| - 1];
    }
  }

  lemma TallyOne<T, K>(f: T -> K, x: T, k: K)
    ensures Tally(f, [x], k) == if f(x) == k then 1 else 0
  {
    assert [x][..0] == [];
  }

  lemma TallyCons<T, K>(f: T -> K, x: T, s: seq<T>, k: K)
    ensures Tally(f, [x] + s, k) == (if f(x) == k then 1 else 0) + Tally(f, s, k)
  {
    TallyConcat(f, [x], s, k);
    TallyOne(f, x, k);
  }

  lemma TallySnoc<T, K>(f: T -> K, s: seq<T>, x: T, k: K)
    ensures Tally(f, s + [x], k) == Tally(f, s, k) + (if f(x) == k then 1 else 0)
  {
    assert (s + [x])[..|s|] == s;
  }

  lemma TallyTail<T, K>(f: T -> K, s: seq<T>, k: K)
    requires s != []
    ensures Tally(f, s, k) == (if f(s[0]) == k then 1 else 0) + Tally(f, s[1..], k)
  {
    assert s == [s[0]] + s[1..];
    TallyCons(f, s[0], s[1..], k);
  }

  lemma TallyWithout<T, K>(f: T -> K, s: seq<T>, i: nat, k: K)
    requires i < |s|
    ensures Tally(f, s, k) == Tally(f, s[..i] + s[i + 1..], k) + (if f(s[i]) == k then 1 else 0)
  {
    assert s == s[..i] + ([s[i]] + s[i + 1..]);
    TallyConcat(f, s[..i], [s[i]] + s[i + 1..], k);
    TallyCons(f, s[i], s[i + 1..], k);
    TallyConcat(f, s[..i], s[i + 1..], k);
  }

  lemma {:induction false} TallyHas<T, K>(f: T -> K, s: seq<T>, k: K)
    ensures Tally(f, s, k) > 0 <==> exists i :: 0 <= i < |s| && f(s[i]) == k
  {
    if s != [] {
      var init := s[..|s| - 1];
      TallyHas(f, init, k);
      if Tally(f, init, k) > 0 {
        var i :| 0 <= i < |init| && f(init[i]) == k;
        assert f(s[i]) == k;
      }
    }
  }
}
