/** What insertion and finalization keep true of the forest, and the central law of
    finalization: exactly the descendants of the finalized block stay. */
module Finality {
  import opened Commits
  import opened Forests
  import opened Unfinalized

  /** The caller's side of an insertion that `insert` itself does not check: a fresh hash,
      and a parent on the level directly above. */
  ghost predicate WellPlaced(f: Forest, record: BlockRecord, number: nat)
    requires CanInsert(f, number, record.parent)
  {
    && record.hash !in f.parents && record.hash != record.parent
    && (f.lastFinalized.Some? ==>
          && record.hash != f.lastFinalized.value.0
          && (number > f.Front() ==> record.parent in Hashes(f.levels[number - f.Front() - 1])))
  }

  // ---------- Insertion ----------

  lemma {:induction false} EmptyLevelIsHarmless(levels: seq<Level>, parents: Parents, roots: set<BlockHash>)
    ensures AllHashes(levels + [[]]) == AllHashes(levels)
    ensures Distinct(levels) ==> Distinct(levels + [[]])
    ensures Rooted(levels, parents, roots) ==> Rooted(levels + [[]], parents, roots)
  {
    if levels == [] {
      assert (levels + [[]])[1..] == [];
    } else {
      EmptyLevelIsHarmless(levels[1..], parents, Hashes(levels[0]));
      assert (levels + [[]])[1..] == levels[1..] + [[]];
    }
  }

  lemma {:induction false} AppendBlock(levels: seq<Level>, parents: Parents, roots: set<BlockHash>, i: nat, b: BlockOverlay, parent: BlockHash)
    requires i < |levels| && Distinct(levels) && b.hash !in AllHashes(levels)
    requires Rooted(levels, parents, roots) && AllHashes(levels) <= parents.Keys && b.hash !in parents
    requires parent in (if i == 0 then roots else Hashes(levels[i - 1]))
    ensures var levels' := levels[i := levels[i] + [b]];
            && AllHashes(levels') == AllHashes(levels) + {b.hash}
            && Distinct(levels')
            && Rooted(levels', parents[b.hash := parent], roots)
  {
    var levels' := levels[i := levels[i] + [b]];
    var parents' := parents[b.hash := parent];
    assert forall x :: x in levels[0] ==> x.hash in Hashes(levels[0]);
    if i == 0 {
      assert levels'[1..] == levels[1..];
      assert Hashes(levels'[0]) == Hashes(levels[0]) + {b.hash};
      RootedMonotone(levels[1..], parents, parents', Hashes(levels[0]), Hashes(levels'[0]));
    } else {
      assert levels'[1..] == levels[1..][i - 1 := levels[1..][i - 1] + [b]];
      AppendBlock(levels[1..], parents, Hashes(levels[0]), i - 1, b, parent);
    }
  }

  lemma {:induction false} RootedMonotone(levels: seq<Level>, p: Parents, q: Parents, roots: set<BlockHash>, roots': set<BlockHash>)
    requires Rooted(levels, p, roots) && roots <= roots' && Agree(p, q, AllHashes(levels))
    ensures Rooted(levels, q, roots')
  {
    if levels != [] {
      assert forall x :: x in levels[0] ==> x.hash in Hashes(levels[0]);
      RootedMonotone(levels[1..], p, q, Hashes(levels[0]), Hashes(levels[0]));
    }
  }

  lemma InsertKeepsValid(f: Forest, record: BlockRecord, number: nat)
    requires Valid(f) && CanInsert(f, number, record.parent) && WellPlaced(f, record, number)
    ensures Valid(Inserted(f, record, number))
  {
    var g := Grounded(f, number, record.parent);
    var i, root := number - g.Front(), g.lastFinalized.value.0;
    var levels := if i == |g.levels| then g.levels + [[]] else g.levels;
    EmptyLevelIsHarmless(g.levels, g.parents, {root});
    AppendBlock(levels, g.parents, {root}, i, OverlayOf(record, BlockJournal(number, |levels[i]|)), record.parent);
  }

  // ---------- Finalization ----------

  /** A block is kept or lost together with its children, so survivors stay rooted. */
  lemma {:induction false} SurvivorsRooted(levels: seq<Level>, parents: Parents, roots: set<BlockHash>, doomed: set<BlockHash>)
    requires Rooted(levels, parents, roots)
    ensures Rooted(Survivors(levels, parents, doomed), parents, roots - doomed)
  {
    if levels != [] {
      var fallen := Fallen(levels[0], parents, doomed);
      SurvivorsRooted(levels[1..], parents, Hashes(levels[0]), fallen);
      KeepElements(levels[0], parents, doomed);
      assert Hashes(Keep(levels[0], parents, doomed)) == Hashes(levels[0]) - fallen;
      assert Survivors(levels, parents, doomed)[1..] == Survivors(levels[1..], parents, fallen);
    }
  }

  lemma FinalizeKeepsValid(f: Forest, hash: BlockHash)
    requires Valid(f) && CanFinalize(f, hash)
    ensures Valid(Finalized(f, hash))
  {
    var losers, below, g := Losers(f, hash), f.levels[1..], Finalized(f, hash);
    SurvivorsHashes(below, f.parents, losers);
    RemovedBelongs(below, f.parents, losers);
    SurvivorsRooted(below, f.parents, Hashes(f.levels[0]), losers);
    assert Hashes(f.levels[0]) - losers == {hash};
    RootedMonotone(g.levels, f.parents, g.parents, {hash}, {hash});
  }

  // ---------- Descent ----------

  /** Following `steps` parent links from `hash` leads to `ancestor`. */
  ghost predicate Climbs(parents: Parents, hash: BlockHash, ancestor: BlockHash, steps: nat)
    decreases steps
  {
    if steps == 0 then hash == ancestor
    else hash in parents && Climbs(parents, parents[hash], ancestor, steps - 1)
  }

  ghost predicate Descends(parents: Parents, hash: BlockHash, ancestor: BlockHash) {
    exists steps: nat :: Climbs(parents, hash, ancestor, steps)
  }

  /** The blocks of a level that descend from `ancestor`, in order. */
  ghost function Descendants(level: Level, parents: Parents, ancestor: BlockHash): Level {
    if level == [] then []
    else
      var last := |level| - 1;
      Descendants(level[..last], parents, ancestor) +
      (if Descends(parents, level[last].hash, ancestor) then [level[last]] else [])
  }

  /** Climbing from a block on level `i` reaches exactly one block of the roots' level, after
      `i + 1` steps, and cannot go on past the last finalized block. */
  lemma {:induction false} ClimbToRoots(levels: seq<Level>, parents: Parents, roots: set<BlockHash>, i: nat, b: BlockOverlay)
    returns (root: BlockHash)
    requires Rooted(levels, parents, roots) && i < |levels| && b in levels[i]
    ensures root in roots && Climbs(parents, b.hash, root, i + 1)
  {
    if i == 0 {
      root := parents[b.hash];
      assert Climbs(parents, parents[b.hash], root, 0);
    } else {
      var middle := ClimbToRoots(levels[1..], parents, Hashes(levels[0]), i - 1, b);
      var c :| c in levels[0] && c.hash == middle;
      root := parents[middle];
      ClimbOneMore(parents, b.hash, middle, i);
    }
  }

  lemma {:induction false} ClimbOneMore(parents: Parents, hash: BlockHash, middle: BlockHash, steps: nat)
    requires Climbs(parents, hash, middle, steps) && middle in parents
    ensures Climbs(parents, hash, parents[middle], steps + 1)
    decreases steps
  {
    if steps == 0 {
      assert Climbs(parents, parents[hash], parents[middle], 0);
    } else {
      ClimbOneMore(parents, parents[hash], middle, steps - 1);
    }
  }

  lemma {:induction false} ClimbIsFunctional(parents: Parents, hash: BlockHash, a: BlockHash, b: BlockHash, m: nat, n: nat)
    requires Climbs(parents, hash, a, m) && Climbs(parents, hash, b, n) && m <= n
    ensures Climbs(parents, a, b, n - m)
    decreases m
  {
    if m > 0 {
      ClimbIsFunctional(parents, parents[hash], a, b, m - 1, n - 1);
    }
  }

  /** The hashes whose children fall on level `i` when `doomed` fall above level 0. */
  ghost function DoomedAbove(levels: seq<Level>, parents: Parents, doomed: set<BlockHash>, i: nat): set<BlockHash>
    requires i < |levels|
  {
    if i == 0 then doomed else DoomedAbove(levels[1..], parents, Fallen(levels[0], parents, doomed), i - 1)
  }

  lemma {:induction false} SurvivorsAt(levels: seq<Level>, parents: Parents, doomed: set<BlockHash>, i: nat)
    requires i < |levels|
    ensures Survivors(levels, parents, doomed)[i] == Keep(levels[i], parents, DoomedAbove(levels, parents, doomed, i))
  {
    if i > 0 {
      SurvivorsAt(levels[1..], parents, Fallen(levels[0], parents, doomed), i - 1);
    }
  }

  /** The blocks that go when `doomed` fall above level 0. */
  ghost predicate Falls(levels: seq<Level>, parents: Parents, doomed: set<BlockHash>, i: nat, b: BlockOverlay)
    requires i < |levels|
  {
    b in levels[i] && ChildOf(parents, b.hash, DoomedAbove(levels, parents, doomed, i))
  }

  lemma {:induction false} RemovedKeysAreOfFallen(levels: seq<Level>, parents: Parents, doomed: set<BlockHash>, k: MetaKey)
    ensures k in RemovedKeys(levels, parents, doomed)
       <==> exists i, b :: 0 <= i < |levels| && Falls(levels, parents, doomed, i, b) && b.journalKey == k
  {
    if levels != [] {
      var fallen := Fallen(levels[0], parents, doomed);
      RemovedKeysAreOfFallen(levels[1..], parents, fallen, k);
      assert forall i, b :: 0 <= i < |levels| - 1 ==>
        (Falls(levels[1..], parents, fallen, i, b) <==> Falls(levels, parents, doomed, i + 1, b));
      if i, b :| 0 <= i < |levels| && Falls(levels, parents, doomed, i, b) && b.journalKey == k {
        if i == 0 {
          assert k in FallenKeys(levels[0], parents, doomed);
        } else {
          assert Falls(levels[1..], parents, fallen, i - 1, b);
        }
      }
      if k in FallenKeys(levels[0], parents, doomed) {
        var b :| b in levels[0] && ChildOf(parents, b.hash, doomed) && b.journalKey == k;
        assert Falls(levels, parents, doomed, 0, b);
      }
    }
  }

  /** A block falls exactly when it climbs to one of the doomed roots. */
  lemma {:induction false} FallsByItsRoot(levels: seq<Level>, parents: Parents, roots: set<BlockHash>, doomed: set<BlockHash>,
                                          i: nat, b: BlockOverlay)
    requires Rooted(levels, parents, roots) && i < |levels| && b in levels[i]
    ensures ChildOf(parents, b.hash, DoomedAbove(levels, parents, doomed, i))
       <==> Reaches(parents, b.hash, doomed, i + 1)
  {
    if i == 0 {
      ReachesItsAncestor(parents, b.hash, parents[b.hash], doomed, 1);
    } else {
      var fallen := Fallen(levels[0], parents, doomed);
      FallsByItsRoot(levels[1..], parents, Hashes(levels[0]), fallen, i - 1, b);
      var middle := ClimbToRoots(levels[1..], parents, Hashes(levels[0]), i - 1, b);
      var c :| c in levels[0] && c.hash == middle;
      ClimbOneMore(parents, b.hash, middle, i);
      ReachesItsAncestor(parents, b.hash, middle, fallen, i);
      ReachesItsAncestor(parents, b.hash, parents[middle], doomed, i + 1);
    }
  }

  ghost predicate Reaches(parents: Parents, hash: BlockHash, targets: set<BlockHash>, steps: nat) {
    exists d :: d in targets && Climbs(parents, hash, d, steps)
  }

  lemma ReachesItsAncestor(parents: Parents, hash: BlockHash, ancestor: BlockHash, targets: set<BlockHash>, steps: nat)
    requires Climbs(parents, hash, ancestor, steps)
    ensures Reaches(parents, hash, targets, steps) <==> ancestor in targets
  {
    if Reaches(parents, hash, targets, steps) {
      var d :| d in targets && Climbs(parents, hash, d, steps);
      ClimbIsFunctional(parents, hash, d, ancestor, steps, steps);
    }
  }

  /** Below the finalized block, descending from a root is climbing to it in the number of
      steps that separates the two levels. */
  lemma DescentHasOneLength(parents: Parents, hash: BlockHash, root: BlockHash, ancestor: BlockHash, top: BlockHash, steps: nat)
    requires Climbs(parents, hash, root, steps)
    requires root in parents && parents[root] == top && ancestor in parents && parents[ancestor] == top && top !in parents
    ensures Descends(parents, hash, ancestor) <==> root == ancestor
  {
    ClimbOneMore(parents, hash, root, steps);
    forall n: nat | Climbs(parents, hash, ancestor, n) ensures root == ancestor {
      ClimbOneMore(parents, hash, ancestor, n);
      TopIsReachedOnce(parents, hash, top, steps + 1, n + 1);
      ClimbIsFunctional(parents, hash, root, ancestor, steps, n);
    }
  }

  lemma TopIsReachedOnce(parents: Parents, hash: BlockHash, top: BlockHash, m: nat, n: nat)
    requires top !in parents && Climbs(parents, hash, top, m) && Climbs(parents, hash, top, n)
    ensures m == n
  {
    if m <= n {
      ClimbIsFunctional(parents, hash, top, top, m, n);
    } else {
      ClimbIsFunctional(parents, hash, top, top, n, m);
    }
  }

  lemma {:induction false} KeepIsDescendants(level: Level, parents: Parents, doomed: set<BlockHash>, ancestor: BlockHash)
    requires forall b :: b in level ==> (ChildOf(parents, b.hash, doomed) <==> !Descends(parents, b.hash, ancestor))
    ensures Keep(level, parents, doomed) == Descendants(level, parents, ancestor)
  {
    if level != [] {
      KeepIsDescendants(level[..|level| - 1], parents, doomed, ancestor);
      assert level[|level| - 1] in level;
    }
  }

  /** Finalizing a root leaves on every level exactly the blocks that descend from it, in
      their order; the parent map keeps exactly their hashes; and the journal keys dropped
      are exactly those of the blocks that went. */
  lemma FinalizeKeepsExactlyDescendants(f: Forest, hash: BlockHash)
    requires Valid(f) && CanFinalize(f, hash)
    ensures var g := Finalized(f, hash);
            && |g.levels| == |f.levels| - 1
            && (forall i :: 0 <= i < |g.levels| ==> g.levels[i] == Descendants(f.levels[i + 1], f.parents, hash))
            && g.parents.Keys == AllHashes(g.levels)
            && (forall h :: h in g.parents ==> g.parents[h] == f.parents[h])
    ensures forall k :: k in DroppedKeys(f, hash) <==> exists i, b ::
              && 0 <= i < |f.levels| && b in f.levels[i] && b.journalKey == k
              && (i == 0 || !Descends(f.parents, b.hash, hash))
  {
    FinalizeKeepsValid(f, hash);
    var losers, below, top := Losers(f, hash), f.levels[1..], f.lastFinalized.value.0;
    forall i | 0 <= i < |below|
      ensures Survivors(below, f.parents, losers)[i] == Descendants(below[i], f.parents, hash)
    {
      SurvivorsAt(below, f.parents, losers, i);
      var doomed := DoomedAbove(below, f.parents, losers, i);
      forall b: BlockOverlay | b in below[i] ensures ChildOf(f.parents, b.hash, doomed) <==> !Descends(f.parents, b.hash, hash) {
        SurvivesWithItsRoot(f, hash, i, b);
      }
      KeepIsDescendants(below[i], f.parents, doomed, hash);
    }
    forall k ensures k in DroppedKeys(f, hash) <==> exists i, b ::
              && 0 <= i < |f.levels| && b in f.levels[i] && b.journalKey == k
              && (i == 0 || !Descends(f.parents, b.hash, hash))
    {
      DroppedKeysAreOfRemoved(f, hash, k);
    }
  }

  lemma DroppedKeysAreOfRemoved(f: Forest, hash: BlockHash, k: MetaKey)
    requires Valid(f) && CanFinalize(f, hash)
    ensures k in DroppedKeys(f, hash) <==> exists i, b ::
              && 0 <= i < |f.levels| && b in f.levels[i] && b.journalKey == k
              && (i == 0 || !Descends(f.parents, b.hash, hash))
  {
    var losers, below := Losers(f, hash), f.levels[1..];
    RemovedKeysAreOfFallen(below, f.parents, losers, k);
    forall i: nat, b: BlockOverlay | i < |below| && b in below[i]
      ensures Falls(below, f.parents, losers, i, b) <==> !Descends(f.parents, b.hash, hash)
    {
      SurvivesWithItsRoot(f, hash, i, b);
    }
    if k in RemovedKeys(below, f.parents, losers) {
      var i, b :| 0 <= i < |below| && Falls(below, f.parents, losers, i, b) && b.journalKey == k;
      assert b in f.levels[i + 1];
    }
    if i, b :| 0 < i < |f.levels| && b in f.levels[i] && b.journalKey == k && !Descends(f.parents, b.hash, hash) {
      assert Falls(below, f.parents, losers, i - 1, b);
    }
  }

  lemma SurvivesWithItsRoot(f: Forest, hash: BlockHash, i: nat, b: BlockOverlay)
    requires Valid(f) && CanFinalize(f, hash) && i < |f.levels| - 1 && b in f.levels[i + 1]
    ensures ChildOf(f.parents, b.hash, DoomedAbove(f.levels[1..], f.parents, Losers(f, hash), i))
       <==> !Descends(f.parents, b.hash, hash)
  {
    var roots, below, top := Hashes(f.levels[0]), f.levels[1..], f.lastFinalized.value.0;
    FallsByItsRoot(below, f.parents, roots, Losers(f, hash), i, b);
    var root := ClimbToRoots(below, f.parents, roots, i, b);
    ReachesItsAncestor(f.parents, b.hash, root, Losers(f, hash), i + 1);
    RootsHangFromTop(f, root);
    RootsHangFromTop(f, hash);
    DescentHasOneLength(f.parents, b.hash, root, hash, top, i + 1);
  }

  lemma RootsHangFromTop(f: Forest, root: BlockHash)
    requires Valid(f) && f.lastFinalized.Some? && f.levels != [] && root in Hashes(f.levels[0])
    ensures root in f.parents && f.parents[root] == f.lastFinalized.value.0
  {
    var b :| b in f.levels[0] && b.hash == root;
  }
}
