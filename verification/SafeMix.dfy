/** Mixing seeds: a stack of depth 17 computes, seed by seed, the value of a tree whose nodes
    take the majority of three children. */
module SafeMix {
  const MAX_DEPTH: nat := 17

  /** The operations the seeds bring along. */
  datatype Bits<!T> = Bits(and: (T, T) -> T, or: (T, T) -> T, zero: T)

  function SubMix<T>(bits: Bits<T>, a: T, b: T, c: T): T {
    bits.or(bits.or(bits.and(a, b), bits.and(b, c)), bits.and(a, c))
  }

  // ---------- The tree ----------

  function Pow3(k: nat): (r: nat)
    ensures r > 0
  {
    if k == 0 then 1 else 3 * Pow3(k - 1)
  }

  /** The value of the tree of depth `k` over all of `seeds`. */
  ghost function Mixed<T>(bits: Bits<T>, seeds: seq<T>, k: nat): T
    requires |seeds| == Pow3(k)
  {
    if k == 0 then seeds[0]
    else
      var n := Pow3(k - 1);
      SubMix(bits, Mixed(bits, seeds[..n], k - 1), Mixed(bits, seeds[n..2 * n], k - 1), Mixed(bits, seeds[2 * n..], k - 1))
  }

  /** The seeds in whole triples. */
  function Whole(n: nat): nat {
    n - n % 3
  }

  /** How often three divides `m`, up to a cap. */
  function Depth(m: nat, cap: nat): nat {
    if cap == 0 || m % 3 != 0 then 0 else 1 + Depth(m / 3, cap - 1)
  }

  // ---------- Nodes by number ----------

  /** The number of nodes of depth `d` that `i` seeds complete. */
  function Level(i: nat, d: nat): nat {
    if d == 0 then i else Level(i, d - 1) / 3
  }

  /** The value of the q-th node of depth `d`. */
  ghost function Node<T>(bits: Bits<T>, seeds: seq<T>, d: nat, q: nat): T
    requires q < Level(|seeds|, d)
  {
    if d == 0 then seeds[q]
    else SubMix(bits, Node(bits, seeds, d - 1, 3 * q), Node(bits, seeds, d - 1, 3 * q + 1), Node(bits, seeds, d - 1, 3 * q + 2))
  }

  /** Where the q-th node of depth `d` begins. */
  function Start(d: nat, q: nat): nat {
    if q == 0 then 0 else Start(d, q - 1) + Pow3(d)
  }

  lemma {:induction false} StartOfChildren(d: nat, q: nat)
    ensures Start(d, 3 * q) == Start(d + 1, q) == 3 * Start(d, q)
  {
    if q != 0 {
      StartOfChildren(d, q - 1);
      assert Start(d, 3 * q) == Start(d, 3 * q - 3) + 3 * Pow3(d) by {
        assert Start(d, 3 * q - 1) == Start(d, 3 * q - 2) + Pow3(d);
        assert Start(d, 3 * q - 2) == Start(d, 3 * q - 3) + Pow3(d);
      }
      assert 3 * q - 3 == 3 * (q - 1);
    }
  }

  lemma {:induction false} NodeIsCovered(i: nat, d: nat, q: nat)
    requires q < Level(i, d)
    ensures Start(d, q + 1) <= i
  {
    if d == 0 {
      StartOfLeaf(q + 1);
    } else {
      NodeIsCovered(i, d - 1, 3 * q + 2);
      StartOfChildren(d - 1, q + 1);
      assert 3 * q + 2 + 1 == 3 * (q + 1);
    }
  }

  lemma {:induction false} StartOfLeaf(q: nat)
    ensures Start(0, q) == q
  {
    if q != 0 {
      StartOfLeaf(q - 1);
    }
  }

  /** The seeds under the q-th node of depth `d`. */
  ghost function Stretch<T>(seeds: seq<T>, d: nat, q: nat): (r: seq<T>)
    requires q < Level(|seeds|, d)
    ensures |r| == Pow3(d)
  {
    NodeIsCovered(|seeds|, d, q);
    seeds[Start(d, q)..Start(d, q) + Pow3(d)]
  }

  lemma StretchThirds<T>(seeds: seq<T>, d: nat, q: nat)
    requires d > 0 && q < Level(|seeds|, d)
    ensures var s, n := Stretch(seeds, d, q), Pow3(d - 1);
            && s[..n] == Stretch(seeds, d - 1, 3 * q)
            && s[n..2 * n] == Stretch(seeds, d - 1, 3 * q + 1)
            && s[2 * n..] == Stretch(seeds, d - 1, 3 * q + 2)
  {
    NodeIsCovered(|seeds|, d, q);
    ChildStarts(d, q);
    Thirds(seeds, Start(d - 1, 3 * q), Start(d - 1, 3 * q + 1), Start(d - 1, 3 * q + 2), Pow3(d - 1));
  }

  lemma ChildStarts(d: nat, q: nat)
    requires d > 0
    ensures Start(d - 1, 3 * q) == Start(d, q)
    ensures Start(d - 1, 3 * q + 1) == Start(d, q) + Pow3(d - 1)
    ensures Start(d - 1, 3 * q + 2) == Start(d, q) + 2 * Pow3(d - 1)
  {
    StartOfChildren(d - 1, q);
    assert Start(d - 1, 3 * q + 2) == Start(d - 1, 3 * q + 1) + Pow3(d - 1);
  }

  /** A node is the tree over its own stretch of the seeds. */
  lemma {:induction false} NodeIsMixed<T>(bits: Bits<T>, seeds: seq<T>, d: nat, q: nat)
    requires q < Level(|seeds|, d)
    ensures Node(bits, seeds, d, q) == Mixed(bits, Stretch(seeds, d, q), d)
  {
    if d == 0 {
      StartOfLeaf(q);
    } else {
      NodeIsMixed(bits, seeds, d - 1, 3 * q);
      NodeIsMixed(bits, seeds, d - 1, 3 * q + 1);
      NodeIsMixed(bits, seeds, d - 1, 3 * q + 2);
      StretchThirds(seeds, d, q);
    }
  }

  lemma Thirds<T>(seeds: seq<T>, a: nat, b: nat, c: nat, n: nat)
    requires b == a + n && c == b + n && c + n <= |seeds|
    ensures var s := seeds[a..a + 3 * n];
            s[..n] == seeds[a..a + n] && s[n..2 * n] == seeds[b..b + n] && s[2 * n..] == seeds[c..c + n]
  {
  }

  // ---------- Carrying ----------

  lemma {:induction false} LevelShift(i: nat, d: nat)
    ensures Level(i, d + 1) == Level(i / 3, d)
  {
    if d != 0 {
      LevelShift(i, d - 1);
    }
  }

  /** The last node of the depth that `m` ends at covers the seeds up to `m`. */
  lemma {:induction false} DepthDivides(m: nat, cap: nat)
    ensures Start(Depth(m, cap), Level(m, Depth(m, cap))) == m
  {
    var k := Depth(m, cap);
    if k == 0 {
      StartOfLeaf(m);
    } else {
      DepthDivides(m / 3, cap - 1);
      LevelShift(m, k - 1);
      StartOfChildren(k - 1, Level(m, k));
    }
  }

  /** One more seed completes one more node, or none, of each depth. */
  lemma {:induction false} LevelGrows(i: nat, d: nat)
    ensures Level(i, d) <= Level(i + 1, d) <= Level(i, d) + 1
  {
    if d != 0 {
      LevelGrows(i, d - 1);
    }
  }

  lemma {:induction false} LevelShrinks(i: nat, n: nat, d: nat)
    requires i <= n
    ensures Level(i, d) <= Level(n, d)
  {
    if d != 0 {
      LevelShrinks(i, n, d - 1);
    }
  }

  /** Once a depth completes no triple, the depths above are left alone. */
  lemma {:induction false} NoCarry(i: nat, d: nat, e: nat)
    requires d < e && Level(i + 1, d) / 3 == Level(i, d) / 3
    ensures Level(i + 1, e) == Level(i, e)
  {
    if e != d + 1 {
      NoCarry(i, d, e - 1);
    }
  }

  // ---------- The stack ----------

  /** The row of the stack for depth `d` holds the last three of the first `count` nodes. */
  ghost predicate Row<T>(bits: Bits<T>, seeds: seq<T>, accum: array2<T>, d: nat, count: nat)
    requires accum.Length0 == MAX_DEPTH && accum.Length1 == 3 && d < MAX_DEPTH
    reads accum
  {
    && count <= Level(|seeds|, d)
    && forall q :: count - 3 <= q < count && 0 <= q ==> accum[d, q % 3] == Node(bits, seeds, d, q)
  }

  /** The value of the node that the first `i` seeds end with. */
  ghost function Latest<T>(bits: Bits<T>, seeds: seq<T>, i: nat): T
    requires i <= |seeds|
  {
    var m := Whole(i);
    if m == 0 then bits.zero
    else
      var k := Depth(m, MAX_DEPTH);
      EndsWithNode(m, MAX_DEPTH, |seeds|);
      Node(bits, seeds, k, Level(m, k) - 1)
  }

  lemma {:induction false} EndsWithNode(m: nat, cap: nat, n: nat)
    requires 0 < m <= n
    ensures 0 < Level(m, Depth(m, cap)) <= Level(n, Depth(m, cap))
  {
    DepthDivides(m, cap);
    LevelShrinks(m, n, Depth(m, cap));
  }

  /** The number of nodes of depth `d` on the stack while seed `i` is carried up to `depth`. */
  ghost function Count(i: nat, depth: int, d: nat): nat {
    if d <= depth then Level(i + 1, d) else Level(i, d)
  }

  ghost predicate Stack<T>(bits: Bits<T>, seeds: seq<T>, accum: array2<T>, i: nat, depth: int)
    reads accum
  {
    && accum.Length0 == MAX_DEPTH && accum.Length1 == 3
    && forall d :: 0 <= d < MAX_DEPTH ==> Row(bits, seeds, accum, d, Count(i, depth, d))
  }

  lemma TripleIsNode<T>(bits: Bits<T>, seeds: seq<T>, accum: array2<T>, d: nat, count: nat)
    requires accum.Length0 == MAX_DEPTH && accum.Length1 == 3 && d < MAX_DEPTH
    requires Row(bits, seeds, accum, d, count) && count % 3 == 0 && count > 0
    ensures count / 3 - 1 < Level(|seeds|, d + 1)
    ensures SubMix(bits, accum[d, 0], accum[d, 1], accum[d, 2]) == Node(bits, seeds, d + 1, count / 3 - 1)
  {
    var q := count / 3 - 1;
    assert accum[d, (3 * q) % 3] == Node(bits, seeds, d, 3 * q);
    assert accum[d, (3 * q + 1) % 3] == Node(bits, seeds, d, 3 * q + 1);
    assert accum[d, (3 * q + 2) % 3] == Node(bits, seeds, d, 3 * q + 2);
  }

  lemma OtherSlot(p: nat, q: nat)
    requires q - 3 < p < q
    ensures p % 3 != q % 3
  {
  }

  /** Save a completed node for its parent. */
  method Store<T>(bits: Bits<T>, accum: array2<T>, d: nat, q: nat, value: T, ghost seeds: seq<T>, ghost i: nat)
    requires 0 < d < MAX_DEPTH && Stack(bits, seeds, accum, i, d - 1)
    requires Level(i, d) == q && Level(i + 1, d) == q + 1 <= Level(|seeds|, d) && value == Node(bits, seeds, d, q)
    modifies accum
    ensures Stack(bits, seeds, accum, i, d)
  {
    assert Count(i, d - 1, d) == q;
    assert Row(bits, seeds, accum, d, Count(i, d - 1, d));
    label Before:
    accum[d, q % 3] := value;
    assert Row(bits, seeds, accum, d, q + 1) by {
      forall p | q + 1 - 3 <= p < q + 1 && 0 <= p ensures accum[d, p % 3] == Node(bits, seeds, d, p) {
        if p < q {
          OtherSlot(p, q);
          assert old@Before(accum[d, p % 3]) == Node(bits, seeds, d, p);
        }
      }
    }
    forall e | 0 <= e < MAX_DEPTH ensures Row(bits, seeds, accum, e, Count(i, d, e)) {
      if e != d {
        assert old@Before(Row(bits, seeds, accum, e, Count(i, d - 1, e)));
      }
    }
  }

  /** Carrying seed `i` has reached `depth`, where it completes node `index`. */
  ghost predicate Reached<T>(bits: Bits<T>, seeds: seq<T>, i: nat, depth: nat, index: nat, before: T, result: T) {
    && Level(i, depth) == index && Level(i + 1, depth) == index + 1 <= Level(|seeds|, depth)
    && (forall d :: 0 <= d < depth ==> EndsTriple(i, d))
    && result == if depth == 0 then before else Node(bits, seeds, depth, index)
  }

  /** Seed `i` ends a triple of nodes of depth `d`. */
  ghost predicate EndsTriple(i: nat, d: nat) {
    Level(i + 1, d) % 3 == 0
  }

  ghost predicate Stops(i: nat, depth: nat) {
    depth == MAX_DEPTH || !EndsTriple(i, depth)
  }

  lemma StackIsCarried<T>(bits: Bits<T>, seeds: seq<T>, accum: array2<T>, i: nat, depth: nat)
    requires Stack(bits, seeds, accum, i, depth)
    requires depth < MAX_DEPTH - 1 ==> Level(i + 1, depth) / 3 == Level(i, depth) / 3
    ensures Stack(bits, seeds, accum, i, MAX_DEPTH)
  {
    forall d | 0 <= d < MAX_DEPTH ensures Row(bits, seeds, accum, d, Count(i, MAX_DEPTH, d)) {
      if depth < d {
        NoCarry(i, depth, d);
      }
      assert Row(bits, seeds, accum, d, Count(i, depth, d));
    }
  }

  lemma CarryOn<T>(bits: Bits<T>, seeds: seq<T>, i: nat, depth: nat, index: nat, before: T, result: T, result': T)
    requires Reached(bits, seeds, i, depth, index, before, result) && index % 3 == 2
    requires result' == Node(bits, seeds, depth + 1, index / 3)
    ensures Reached(bits, seeds, i, depth + 1, index / 3, before, result')
  {
  }

  lemma CarryStep<T>(bits: Bits<T>, seeds: seq<T>, accum: array2<T>, i: nat, depth: nat, index: nat, before: T, result: T)
    requires depth < MAX_DEPTH && Stack(bits, seeds, accum, i, depth)
    requires Reached(bits, seeds, i, depth, index, before, result) && index % 3 == 2
    ensures Reached(bits, seeds, i, depth + 1, index / 3, before, SubMix(bits, accum[depth, 0], accum[depth, 1], accum[depth, 2]))
  {
    assert Row(bits, seeds, accum, depth, Count(i, depth, depth));
    TripleIsNode(bits, seeds, accum, depth, index + 1);
    CarryOn(bits, seeds, i, depth, index, before, result, SubMix(bits, accum[depth, 0], accum[depth, 1], accum[depth, 2]));
  }

  /** A new seed: complete the nodes it ends, from the leaf upwards. */
  method Carry<T>(bits: Bits<T>, accum: array2<T>, i: nat, before: T, ghost seeds: seq<T>)
    returns (result: T, ghost top: nat, ghost last: nat)
    requires i < |seeds| && Stack(bits, seeds, accum, i, 0)
    modifies accum
    ensures Stack(bits, seeds, accum, i, MAX_DEPTH)
    ensures top <= MAX_DEPTH && Reached(bits, seeds, i, top, last, before, result) && Stops(i, top)
  {
    result, top, last := before, MAX_DEPTH, 0;
    var indexAtDepth := i;
    for depth := 0 to MAX_DEPTH
      invariant depth < MAX_DEPTH
      invariant Stack(bits, seeds, accum, i, depth)
      invariant Reached(bits, seeds, i, depth, indexAtDepth, before, result)
    {
      if indexAtDepth % 3 != 2 {
        top, last := depth, indexAtDepth;
        StackIsCarried(bits, seeds, accum, i, depth);
        return;
      }
      CarryStep(bits, seeds, accum, i, depth, indexAtDepth, before, result);
      result := SubMix(bits, accum[depth, 0], accum[depth, 1], accum[depth, 2]);
      indexAtDepth := indexAtDepth / 3;
      if depth == MAX_DEPTH - 1 {
        last := indexAtDepth;
        StackIsCarried(bits, seeds, accum, i, depth);
        return;
      }
      Store(bits, accum, depth + 1, indexAtDepth, result, seeds, i);
    }
  }

  // ---------- The result ----------

  lemma {:induction false} TopIsDepth(m: nat, cap: nat, top: nat)
    requires m > 0 && top <= cap
    requires forall d :: 0 <= d < top ==> Level(m, d) % 3 == 0
    requires top == cap || Level(m, top) % 3 != 0
    ensures Depth(m, cap) == top
  {
    if top > 0 {
      assert Level(m, 0) % 3 == 0;
      forall d | 0 <= d < top ensures Level(m, d + 1) == Level(m / 3, d) {
        LevelShift(m, d);
      }
      TopIsDepth(m / 3, cap - 1, top - 1);
    }
  }

  /** A seed that ends a triple: the nodes it completes are as deep as three divides their number. */
  lemma CompletesDepth(i: nat, top: nat)
    requires top <= MAX_DEPTH && Stops(i, top) && (forall d :: 0 <= d < top ==> EndsTriple(i, d)) && (i + 1) % 3 == 0
    ensures top > 0 && Depth(i + 1, MAX_DEPTH) == top
  {
    var m := i + 1;
    assert EndsTriple(i, 0);
    forall d | 0 <= d < top ensures Level(m, d) % 3 == 0 {
      assert EndsTriple(i, d);
    }
    TopIsDepth(m, MAX_DEPTH, top);
  }

  lemma LatestNext<T>(bits: Bits<T>, seeds: seq<T>, i: nat, top: nat, last: nat, result: T)
    requires i < |seeds| && top <= MAX_DEPTH
    requires Reached(bits, seeds, i, top, last, Latest(bits, seeds, i), result) && Stops(i, top)
    ensures result == Latest(bits, seeds, i + 1)
  {
    if (i + 1) % 3 == 0 {
      CompletesDepth(i, top);
      assert Whole(i + 1) == i + 1;
    } else {
      assert top == 0 by {
        assert !EndsTriple(i, 0);
      }
      assert Whole(i + 1) == Whole(i);
    }
  }

  lemma StackNext<T>(bits: Bits<T>, seeds: seq<T>, accum: array2<T>, i: nat)
    requires Stack(bits, seeds, accum, i, MAX_DEPTH)
    ensures Stack(bits, seeds, accum, i + 1, -1)
  {
    var next := i + 1;
    forall d | 0 <= d < MAX_DEPTH ensures Row(bits, seeds, accum, d, Count(next, -1, d)) {
      assert Row(bits, seeds, accum, d, Count(i, MAX_DEPTH, d));
    }
  }

  method Push<T>(bits: Bits<T>, accum: array2<T>, i: nat, seed: T, ghost seeds: seq<T>)
    requires i < |seeds| && seed == seeds[i] && Stack(bits, seeds, accum, i, -1)
    modifies accum
    ensures Stack(bits, seeds, accum, i, 0)
  {
    assert Row(bits, seeds, accum, 0, Count(i, -1, 0));
    label Before:
    accum[0, i % 3] := seed;
    forall e | 0 <= e < MAX_DEPTH ensures Row(bits, seeds, accum, e, Count(i, 0, e)) {
      assert old@Before(Row(bits, seeds, accum, e, Count(i, -1, e)));
    }
  }

  /** What the mix of `seeds` is: nothing below three seeds; else, with `m` the seeds in whole
      triples and `k` how often three divides `m`, the tree over the last 3^k of those. */
  ghost predicate IsMix<T>(bits: Bits<T>, seeds: seq<T>, result: T) {
    var m := Whole(|seeds|);
    var k := Depth(m, MAX_DEPTH);
    if m == 0 then result == bits.zero
    else Pow3(k) <= m && result == Mixed(bits, seeds[m - Pow3(k)..m], k)
  }

  lemma LatestIsMix<T>(bits: Bits<T>, seeds: seq<T>)
    ensures IsMix(bits, seeds, Latest(bits, seeds, |seeds|))
  {
    var m := Whole(|seeds|);
    if m != 0 {
      var k := Depth(m, MAX_DEPTH);
      EndsWithNode(m, MAX_DEPTH, |seeds|);
      DepthDivides(m, MAX_DEPTH);
      NodeIsMixed(bits, seeds, k, Level(m, k) - 1);
    }
  }

  // ---------- The result in numbers ----------

  ghost predicate Divides(p: nat, m: nat) {
    exists c: nat :: m == c * p
  }

  lemma DividesTriple(p: nat, m: nat)
    ensures Divides(3 * p, 3 * m) <==> Divides(p, m)
  {
    if c: nat :| m == c * p {
      assert 3 * m == c * (3 * p);
    }
    if c: nat :| 3 * m == c * (3 * p) {
      assert 3 * m == 3 * (c * p);
      assert m == c * p;
    }
  }

  lemma DividesByThree(p: nat, m: nat)
    requires Divides(3 * p, m)
    ensures m % 3 == 0
  {
    var c: nat :| m == c * (3 * p);
    assert m == 3 * (c * p);
  }

  /** The depth is the exponent of three in the number, up to the cap. */
  lemma {:induction false} DepthIsExponent(m: nat, cap: nat)
    ensures var k := Depth(m, cap); k <= cap && Divides(Pow3(k), m) && (k < cap ==> !Divides(Pow3(k + 1), m))
  {
    var k := Depth(m, cap);
    if k == 0 {
      assert m == m * Pow3(0);
      if cap > 0 && Divides(Pow3(1), m) {
        DividesByThree(Pow3(0), m);
      }
    } else {
      DepthIsExponent(m / 3, cap - 1);
      assert m == 3 * (m / 3);
      DividesTriple(Pow3(k - 1), m / 3);
      DividesTriple(Pow3(k), m / 3);
    }
  }

  /** 3^k is the largest power of three that divides `m`, but at most 3^17. */
  ghost predicate Exponent(m: nat, k: nat) {
    Divides(Pow3(k), m) && (k == 17 || (k < 17 && !Divides(Pow3(k + 1), m)))
  }

  lemma DepthIsIt(m: nat)
    ensures Exponent(m, Depth(m, MAX_DEPTH))
  {
    DepthIsExponent(m, MAX_DEPTH);
  }

  /** With `m` the seeds in whole triples: the tree of depth `k` over the last 3^k of the first `m`
      seeds. */
  ghost predicate IsTreeOf<T>(bits: Bits<T>, seeds: seq<T>, k: nat, result: T) {
    var m := |seeds| - |seeds| % 3;
    Exponent(m, k) && Pow3(k) <= m && result == Mixed(bits, seeds[m - Pow3(k)..m], k)
  }

  lemma MixIsTree<T>(bits: Bits<T>, seeds: seq<T>, result: T)
    requires IsMix(bits, seeds, result) && |seeds| >= 3
    ensures exists k: nat :: IsTreeOf(bits, seeds, k, result)
  {
    var m := Whole(|seeds|);
    var k := Depth(m, MAX_DEPTH);
    DepthIsIt(m);
    assert IsTreeOf(bits, seeds, k, result);
  }

  lemma PowerIsTriple(j: nat)
    requires j >= 1
    ensures Pow3(j) == 3 * Pow3(j - 1) && Pow3(j) % 3 == 0 && Pow3(j) >= 3
  {
  }

  lemma {:induction false} DepthOfLargePower(j: nat, cap: nat)
    requires j >= cap
    ensures Depth(Pow3(j), cap) == cap
  {
    if cap != 0 {
      DepthOfLargePower(j - 1, cap - 1);
      TripleOf(Pow3(j - 1));
    }
  }

  /** Up to 3^17 seeds, a power of three of them is mixed whole. */
  lemma PowerIsMixedWhole<T>(bits: Bits<T>, seeds: seq<T>, result: T, j: nat)
    requires IsMix(bits, seeds, result) && 1 <= j <= 17 && |seeds| == Pow3(j)
    ensures result == Mixed(bits, seeds, j)
  {
    PowerIsTriple(j);
    DepthOfPower(j, MAX_DEPTH);
    assert seeds[Pow3(j) - Pow3(j)..Pow3(j)] == seeds;
  }

  /** Beyond that, only the last 3^17 count. */
  lemma LargePowerIsCapped<T>(bits: Bits<T>, seeds: seq<T>, result: T, j: nat)
    requires IsMix(bits, seeds, result) && j >= 17 && |seeds| == Pow3(j)
    ensures Pow3(17) <= |seeds| && result == Mixed(bits, seeds[|seeds| - Pow3(17)..], 17)
  {
    PowerIsTriple(j);
    DepthOfLargePower(j, MAX_DEPTH);
    assert seeds[|seeds| - Pow3(17)..|seeds|] == seeds[|seeds| - Pow3(17)..];
  }

  /** The streaming mix. */
  method TripletMix<T>(bits: Bits<T>, seeds: seq<T>) returns (result: T)
    ensures IsMix(bits, seeds, result)
    ensures |seeds| < 3 ==> result == bits.zero
    ensures |seeds| >= 3 ==> exists k: nat :: IsTreeOf(bits, seeds, k, result)
  {
    var accum := new T[MAX_DEPTH, 3]((_, _) => bits.zero);
    result := bits.zero;
    forall d | 0 <= d < MAX_DEPTH ensures Row(bits, seeds, accum, d, Count(0, -1, d)) {
      LevelOfNothing(d);
    }
    for i := 0 to |seeds|
      invariant Stack(bits, seeds, accum, i, -1)
      invariant result == Latest(bits, seeds, i)
    {
      Push(bits, accum, i, seeds[i], seeds);
      ghost var top, last;
      result, top, last := Carry(bits, accum, i, result, seeds);
      LatestNext(bits, seeds, i, top, last, result);
      StackNext(bits, seeds, accum, i);
    }
    LatestIsMix(bits, seeds);
    if |seeds| >= 3 {
      MixIsTree(bits, seeds, result);
    }
  }

  lemma {:induction false} LevelOfNothing(d: nat)
    ensures Level(0, d) == 0
  {
    if d != 0 {
      LevelOfNothing(d - 1);
    }
  }

  // ---------- What the mix is for ----------

  /** Two equal seeds outvote the third. */
  ghost predicate Majority<T(!new)>(bits: Bits<T>) {
    forall v, x :: SubMix(bits, v, v, x) == v && SubMix(bits, v, x, v) == v && SubMix(bits, x, v, v) == v
  }

  /** The laws of bitwise conjunction and disjunction that matter here. */
  ghost predicate Lattice<T(!new)>(bits: Bits<T>) {
    && (forall v :: bits.and(v, v) == v && bits.or(v, v) == v)
    && (forall v, x :: bits.and(v, x) == bits.and(x, v) && bits.or(v, x) == bits.or(x, v))
    && (forall v, x :: bits.or(v, bits.and(v, x)) == v)
  }

  lemma LatticeHasMajority<T(!new)>(bits: Bits<T>)
    requires Lattice(bits)
    ensures Majority(bits)
  {
    forall v, x ensures SubMix(bits, v, v, x) == v && SubMix(bits, v, x, v) == v && SubMix(bits, x, v, v) == v {
      var both := bits.and(v, x);
      assert bits.and(x, v) == both && bits.or(v, both) == v && bits.or(both, v) == v;
    }
  }

  /** How many seeds differ from `v`. */
  function Dissent<T(==)>(seeds: seq<T>, v: T): nat {
    if seeds == [] then 0 else Dissent(seeds[..|seeds| - 1], v) + (if seeds[|seeds| - 1] == v then 0 else 1)
  }

  lemma {:induction false} DissentAdds<T>(s: seq<T>, s': seq<T>, v: T)
    ensures Dissent(s + s', v) == Dissent(s, v) + Dissent(s', v)
  {
    if s' == [] {
      assert s + s' == s;
    } else {
      DissentAdds(s, s'[..|s'| - 1], v);
      assert (s + s')[..|s + s'| - 1] == s + s'[..|s'| - 1];
    }
  }

  function Pow2(k: nat): (r: nat)
    ensures r > 0
  {
    if k == 0 then 1 else 2 * Pow2(k - 1)
  }

  /** Fewer than 2^k of the 3^k seeds cannot sway a tree of depth `k`. */
  lemma {:induction false} FewCannotSway<T(!new)>(bits: Bits<T>, seeds: seq<T>, k: nat, v: T)
    requires |seeds| == Pow3(k) && Majority(bits) && Dissent(seeds, v) < Pow2(k)
    ensures Mixed(bits, seeds, k) == v
  {
    if k == 0 {
      assert seeds[..0] == [];
    } else {
      var n := Pow3(k - 1);
      var a, b, c := seeds[..n], seeds[n..2 * n], seeds[2 * n..];
      assert seeds == a + b + c;
      DissentAdds(a + b, c, v);
      DissentAdds(a, b, v);
      if Dissent(a, v) < Pow2(k - 1) {
        FewCannotSway(bits, a, k - 1, v);
      }
      if Dissent(b, v) < Pow2(k - 1) {
        FewCannotSway(bits, b, k - 1, v);
      }
      if Dissent(c, v) < Pow2(k - 1) {
        FewCannotSway(bits, c, k - 1, v);
      }
    }
  }

  // ---------- Which lengths use the largest power of three ----------

  /** The largest power of three that fits, up to the cap. */
  ghost predicate Largest(n: nat, j: nat) {
    j <= MAX_DEPTH && Pow3(j) <= n && (j < MAX_DEPTH ==> n < Pow3(j + 1))
  }

  const LOGIC: Bits<bool> := Bits((a: bool, b: bool) => a && b, (a: bool, b: bool) => a || b, false)

  /** The mix is that of the first 3^j seeds, with 3^j the largest power that fits. */
  ghost predicate MixesFirst<T>(bits: Bits<T>, seeds: seq<T>, j: nat) {
    Pow3(j) <= |seeds| && IsMix(bits, seeds, Mixed(bits, seeds[..Pow3(j)], j))
  }

  lemma {:induction false} PowerGrows(j: nat, k: nat)
    requires j < k
    ensures Pow3(j) < Pow3(k)
  {
    if j + 1 < k {
      PowerGrows(j, k - 1);
    }
  }

  /** If the seeds in whole triples are a power of three within the cap, the first stretch is
      the last one and the whole tree is used. */
  lemma WholeTreeIsUsed<T>(bits: Bits<T>, seeds: seq<T>, j: nat)
    requires |seeds| >= 3 && Largest(|seeds|, j) && Whole(|seeds|) == Pow3(j)
    ensures MixesFirst(bits, seeds, j)
  {
    DepthOfPower(j, MAX_DEPTH);
  }

  lemma {:induction false} DepthOfPower(j: nat, cap: nat)
    requires j <= cap
    ensures Depth(Pow3(j), cap) == j
  {
    if j != 0 {
      DepthOfPower(j - 1, cap - 1);
      TripleOf(Pow3(j - 1));
    }
  }

  lemma TripleOf(p: nat)
    ensures (3 * p) % 3 == 0 && (3 * p) / 3 == p
  {
  }

  lemma {:induction false} NoDissent<T>(seeds: seq<T>, v: T)
    requires forall i :: 0 <= i < |seeds| ==> seeds[i] == v
    ensures Dissent(seeds, v) == 0
  {
    if seeds != [] {
      NoDissent(seeds[..|seeds| - 1], v);
    }
  }

  lemma UniformNode(seeds: seq<bool>, d: nat, q: nat, v: bool)
    requires q < Level(|seeds|, d)
    requires forall i :: Start(d, q) <= i < Start(d, q + 1) && i < |seeds| ==> seeds[i] == v
    ensures Node(LOGIC, seeds, d, q) == v
  {
    NodeIsMixed(LOGIC, seeds, d, q);
    NodeIsCovered(|seeds|, d, q);
    NoDissent(Stretch(seeds, d, q), v);
    FewCannotSway(LOGIC, Stretch(seeds, d, q), d, v);
  }

  lemma {:induction false} StartGrows(d: nat, q: nat, q': nat)
    requires q <= q'
    ensures Start(d, q) <= Start(d, q')
  {
    if q < q' {
      StartGrows(d, q, q' - 1);
    }
  }

  /** The seeds that are set just under one node. */
  ghost function Spotlight(n: nat, d: nat, q: nat): seq<bool> {
    seq(n, i requires 0 <= i < n => Start(d, q) <= i < Start(d, q + 1))
  }

  lemma SpotlightNode(n: nat, d: nat, spot: nat, q: nat)
    requires q < Level(n, d)
    ensures Node(LOGIC, Spotlight(n, d, spot), d, q) == (q == spot)
  {
    if q < spot {
      StartGrows(d, q + 1, spot);
    } else if spot < q {
      StartGrows(d, spot + 1, q);
    }
    UniformNode(Spotlight(n, d, spot), d, q, q == spot);
  }

  /** Above its own depth, one set node is outvoted everywhere. */
  lemma {:induction false} SpotlightIsOutvoted(n: nat, d: nat, spot: nat, e: nat, q: nat)
    requires d < e && q < Level(n, e)
    ensures !Node(LOGIC, Spotlight(n, d, spot), e, q)
  {
    var seeds := Spotlight(n, d, spot);
    if e == d + 1 {
      SpotlightNode(n, d, spot, 3 * q);
      SpotlightNode(n, d, spot, 3 * q + 1);
      SpotlightNode(n, d, spot, 3 * q + 2);
    } else {
      SpotlightIsOutvoted(n, d, spot, e - 1, 3 * q);
      SpotlightIsOutvoted(n, d, spot, e - 1, 3 * q + 1);
      SpotlightIsOutvoted(n, d, spot, e - 1, 3 * q + 2);
    }
  }

  lemma {:induction false} FirstNodeExists(n: nat, j: nat)
    requires Pow3(j) <= n
    ensures Level(n, j) > 0
  {
    if j != 0 {
      LevelShift(n, j - 1);
      FirstNodeExists(n / 3, j - 1);
    }
  }

  /** Otherwise some seeds tell the mix from the tree over the first stretch. */
  lemma SpotlightSeparates(n: nat, j: nat) returns (seeds: seq<bool>)
    requires n >= 3 && Largest(n, j) && Whole(n) != Pow3(j)
    ensures |seeds| == n && !MixesFirst(LOGIC, seeds, j)
  {
    var k := Depth(Whole(n), MAX_DEPTH);
    assert Start(k, Level(Whole(n), k)) == Whole(n) by {
      DepthDivides(Whole(n), MAX_DEPTH);
    }
    assert Level(Whole(n), k) > 0 by {
      EndsWithNode(Whole(n), MAX_DEPTH, n);
    }
    var spot := Level(Whole(n), k) - 1;
    SpotlightFails(n, j, k, spot);
    seeds := Spotlight(n, k, spot);
  }

  lemma SpotlightFails(n: nat, j: nat, k: nat, spot: nat)
    requires n >= 3 && Largest(n, j) && Whole(n) != Pow3(j)
    requires k == Depth(Whole(n), MAX_DEPTH) && spot + 1 == Level(Whole(n), k) && Start(k, spot + 1) == Whole(n)
    ensures |Spotlight(n, k, spot)| == n && !MixesFirst(LOGIC, Spotlight(n, k, spot), j)
  {
    SpotlightMissesFirst(n, j, k, spot);
    SpotlightMix(n, k, spot);
    MixIsUnique(LOGIC, Spotlight(n, k, spot), true, false);
  }

  lemma SpotlightMix(n: nat, k: nat, spot: nat)
    requires n >= 3 && k == Depth(Whole(n), MAX_DEPTH) && spot + 1 == Level(Whole(n), k)
    ensures IsMix(LOGIC, Spotlight(n, k, spot), true)
  {
    var seeds := Spotlight(n, k, spot);
    LatestIsMix(LOGIC, seeds);
    EndsWithNode(Whole(n), MAX_DEPTH, n);
    SpotlightNode(n, k, spot, spot);
  }

  lemma MixIsUnique<T>(bits: Bits<T>, seeds: seq<T>, x: T, y: T)
    requires IsMix(bits, seeds, x)
    ensures IsMix(bits, seeds, y) <==> x == y
  {
  }

  lemma SpotlightMissesFirst(n: nat, j: nat, k: nat, spot: nat)
    requires n >= 3 && Largest(n, j) && Whole(n) != Pow3(j)
    requires k == Depth(Whole(n), MAX_DEPTH) && Start(k, spot + 1) == Whole(n)
    ensures !Mixed(LOGIC, Spotlight(n, k, spot)[..Pow3(j)], j)
  {
    var seeds := Spotlight(n, k, spot);
    FirstNodeExists(n, j);
    assert !Node(LOGIC, seeds, j, 0) by {
      DepthIsSmall(n, j);
      if k == j {
        assert Start(k, 1) == Start(k, 0) + Pow3(k);
        SpotlightNode(n, k, spot, 0);
      } else {
        SpotlightIsOutvoted(n, k, spot, j, 0);
      }
    }
    FirstNode(seeds, j);
  }

  lemma FirstNode(seeds: seq<bool>, j: nat)
    requires Level(|seeds|, j) > 0
    ensures Pow3(j) <= |seeds| && Node(LOGIC, seeds, j, 0) == Mixed(LOGIC, seeds[..Pow3(j)], j)
  {
    NodeIsCovered(|seeds|, j, 0);
    assert Start(j, 1) == Start(j, 0) + Pow3(j);
    NodeIsMixed(LOGIC, seeds, j, 0);
  }

  lemma {:induction false} DepthIsSmall(n: nat, j: nat)
    requires n >= 3 && Largest(n, j)
    ensures Depth(Whole(n), MAX_DEPTH) <= j
  {
    var m := Whole(n);
    var k := Depth(m, MAX_DEPTH);
    DepthIsCapped(m, MAX_DEPTH);
    EndsWithNode(m, MAX_DEPTH, n);
    DepthDivides(m, MAX_DEPTH);
    StartGrows(k, 1, Level(m, k));
    assert Pow3(k) == Start(k, 1);
    if j + 1 < k {
      PowerGrows(j + 1, k);
    }
  }

  lemma {:induction false} DepthIsCapped(m: nat, cap: nat)
    ensures Depth(m, cap) <= cap
  {
    if cap != 0 && m % 3 == 0 {
      DepthIsCapped(m / 3, cap - 1);
    }
  }

  ghost predicate AlwaysMixesFirst(n: nat, j: nat) {
    forall seeds: seq<bool> :: |seeds| == n ==> MixesFirst(LOGIC, seeds, j)
  }

  /** The documented reading, that seeds past the largest power of three are ignored, holds of
      exactly the lengths whose whole triples make up that power. */
  lemma IgnoresTheRestIff(n: nat, j: nat)
    requires Largest(n, j)
    ensures AlwaysMixesFirst(n, j) <==> Whole(n) == Pow3(j)
  {
    if n < 3 {
      FewSeedsAreNotMixed(n, j);
    } else if Whole(n) == Pow3(j) {
      forall seeds: seq<bool> | |seeds| == n ensures MixesFirst(LOGIC, seeds, j) {
        WholeTreeIsUsed(LOGIC, seeds, j);
      }
    } else {
      var seeds := SpotlightSeparates(n, j);
    }
  }

  /** One or two seeds have no whole triple, and their mix is the default. */
  lemma FewSeedsAreNotMixed(n: nat, j: nat)
    requires n < 3 && Largest(n, j)
    ensures !AlwaysMixesFirst(n, j) && Whole(n) != Pow3(j)
  {
    var seeds := seq(n, _ => true);
    assert |seeds| == n && seeds[..1][0];
    assert !MixesFirst(LOGIC, seeds, j);
  }
}
