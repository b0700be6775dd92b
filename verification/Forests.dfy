/** The tree of unfinalized blocks, level by level, and what finalizing a root leaves of it. */
module Forests {
  import opened Primitives
  import opened Commits

  datatype BlockOverlay = BlockOverlay(hash: BlockHash, journalKey: MetaKey,
                                       values: map<Key, DBValue>, deleted: seq<Key>)

  type Level = seq<BlockOverlay>
  type Parents = map<BlockHash, BlockHash>

  /** The contents of an UnfinalizedOverlay object. */
  datatype Forest = Forest(lastFinalized: Option<(BlockHash, nat)>, levels: seq<Level>, parents: Parents) {
    /** The number of the blocks on the first level. */
    function Front(): nat {
      if lastFinalized.Some? then lastFinalized.value.1 + 1 else 0
    }
  }

  const EMPTY_FOREST: Forest := Forest(None, [], map[])

  // ---------- Well-formed forests ----------

  ghost function Hashes(level: Level): set<BlockHash> {
    set b | b in level :: b.hash
  }

  ghost function AllHashes(levels: seq<Level>): set<BlockHash> {
    if levels == [] then {} else Hashes(levels[0]) + AllHashes(levels[1..])
  }

  ghost predicate NoRepeat(level: Level) {
    forall i, j :: 0 <= i < j < |level| ==> level[i].hash != level[j].hash
  }

  /** No hash occurs twice, on one level or on two. */
  ghost predicate Distinct(levels: seq<Level>) {
    levels != [] ==>
      && NoRepeat(levels[0])
      && Hashes(levels[0]) !! AllHashes(levels[1..])
      && Distinct(levels[1..])
  }

  /** Every block's parent is on the level above, the first level hanging from `roots`. */
  ghost predicate Rooted(levels: seq<Level>, parents: Parents, roots: set<BlockHash>) {
    levels != [] ==>
      && (forall b :: b in levels[0] ==> ChildOf(parents, b.hash, roots))
      && Rooted(levels[1..], parents, Hashes(levels[0]))
  }

  ghost predicate ChildOf(parents: Parents, hash: BlockHash, roots: set<BlockHash>) {
    hash in parents && parents[hash] in roots
  }

  ghost predicate Valid(f: Forest) {
    && Distinct(f.levels)
    && f.parents.Keys == AllHashes(f.levels)
    && (f.lastFinalized.None? ==> f.levels == [])
    && (f.lastFinalized.Some? ==>
          && f.lastFinalized.value.0 !in f.parents
          && Rooted(f.levels, f.parents, {f.lastFinalized.value.0}))
  }

  // ---------- Discarding, breadth first ----------

  /** The blocks of a level that do not hang from `doomed`, in order. */
  ghost function Keep(level: Level, parents: Parents, doomed: set<BlockHash>): Level {
    if level == [] then []
    else
      var last := |level| - 1;
      Keep(level[..last], parents, doomed) +
      (if ChildOf(parents, level[last].hash, doomed) then [] else [level[last]])
  }

  /** The hashes of a level that hang from `doomed`. */
  ghost function Fallen(level: Level, parents: Parents, doomed: set<BlockHash>): set<BlockHash> {
    set b | b in level && ChildOf(parents, b.hash, doomed) :: b.hash
  }

  ghost function FallenKeys(level: Level, parents: Parents, doomed: set<BlockHash>): set<MetaKey> {
    set b | b in level && ChildOf(parents, b.hash, doomed) :: b.journalKey
  }

  ghost function Survivors(levels: seq<Level>, parents: Parents, doomed: set<BlockHash>): (r: seq<Level>)
    ensures |r| == |levels|
  {
    if levels == [] then []
    else [Keep(levels[0], parents, doomed)] + Survivors(levels[1..], parents, Fallen(levels[0], parents, doomed))
  }

  ghost function Removed(levels: seq<Level>, parents: Parents, doomed: set<BlockHash>): set<BlockHash> {
    if levels == [] then {}
    else
      var fallen := Fallen(levels[0], parents, doomed);
      fallen + Removed(levels[1..], parents, fallen)
  }

  ghost function RemovedKeys(levels: seq<Level>, parents: Parents, doomed: set<BlockHash>): set<MetaKey> {
    if levels == [] then {}
    else
      FallenKeys(levels[0], parents, doomed)
      + RemovedKeys(levels[1..], parents, Fallen(levels[0], parents, doomed))
  }

  lemma {:induction false} KeepElements(level: Level, parents: Parents, doomed: set<BlockHash>)
    ensures forall b :: b in Keep(level, parents, doomed) <==> b in level && !ChildOf(parents, b.hash, doomed)
  {
    if level != [] {
      var last := |level| - 1;
      KeepElements(level[..last], parents, doomed);
      assert level == level[..last] + [level[last]];
    }
  }

  lemma {:induction false} KeepDistinct(level: Level, parents: Parents, doomed: set<BlockHash>)
    requires NoRepeat(level)
    ensures NoRepeat(Keep(level, parents, doomed))
  {
    if level != [] {
      var last := |level| - 1;
      KeepDistinct(level[..last], parents, doomed);
      KeepElements(level[..last], parents, doomed);
      var kept := Keep(level[..last], parents, doomed);
      forall i | 0 <= i < |kept| ensures kept[i].hash != level[last].hash {
        assert kept[i] in kept;
      }
    }
  }

  lemma RemovedBelongs(levels: seq<Level>, parents: Parents, doomed: set<BlockHash>)
    ensures Removed(levels, parents, doomed) <= AllHashes(levels)
  {
  }

  lemma {:induction false} SurvivorsHashes(levels: seq<Level>, parents: Parents, doomed: set<BlockHash>)
    requires Distinct(levels)
    ensures Distinct(Survivors(levels, parents, doomed))
    ensures AllHashes(Survivors(levels, parents, doomed)) == AllHashes(levels) - Removed(levels, parents, doomed)
  {
    if levels != [] {
      var fallen := Fallen(levels[0], parents, doomed);
      var kept, below := Keep(levels[0], parents, doomed), Survivors(levels[1..], parents, fallen);
      SurvivorsHashes(levels[1..], parents, fallen);
      RemovedBelongs(levels[1..], parents, fallen);
      KeepElements(levels[0], parents, doomed);
      KeepDistinct(levels[0], parents, doomed);
      assert Hashes(kept) == Hashes(levels[0]) - fallen;
      assert Survivors(levels, parents, doomed)[1..] == below;
    }
  }

  /** Discarding two sets of subtrees one after the other discards their union. */
  lemma {:induction false} DiscardsCompose(levels: seq<Level>, parents: Parents, first: set<BlockHash>, second: set<BlockHash>)
    ensures Survivors(Survivors(levels, parents, first), parents, second) == Survivors(levels, parents, first + second)
    ensures Removed(levels, parents, first) + Removed(Survivors(levels, parents, first), parents, second)
         == Removed(levels, parents, first + second)
    ensures RemovedKeys(levels, parents, first) + RemovedKeys(Survivors(levels, parents, first), parents, second)
         == RemovedKeys(levels, parents, first + second)
  {
    if levels != [] {
      var level := levels[0];
      KeepCompose(level, parents, first, second);
      FallenCompose(level, parents, first, second);
      var fallen1, fallen2 := Fallen(level, parents, first), Fallen(Keep(level, parents, first), parents, second);
      DiscardsCompose(levels[1..], parents, fallen1, fallen2);
      assert Survivors(levels, parents, first)[1..] == Survivors(levels[1..], parents, fallen1);
    }
  }

  lemma FallenCompose(level: Level, parents: Parents, first: set<BlockHash>, second: set<BlockHash>)
    ensures Fallen(level, parents, first) + Fallen(Keep(level, parents, first), parents, second)
         == Fallen(level, parents, first + second)
    ensures FallenKeys(level, parents, first) + FallenKeys(Keep(level, parents, first), parents, second)
         == FallenKeys(level, parents, first + second)
  {
    KeepElements(level, parents, first);
  }

  lemma {:induction false} KeepCompose(level: Level, parents: Parents, first: set<BlockHash>, second: set<BlockHash>)
    ensures Keep(Keep(level, parents, first), parents, second) == Keep(level, parents, first + second)
  {
    if level != [] {
      var init, b := level[..|level| - 1], level[|level| - 1];
      KeepCompose(init, parents, first, second);
      if !ChildOf(parents, b.hash, first) {
        assert Keep(level, parents, first) == Keep(init, parents, first) + [b];
        KeepAppend(Keep(init, parents, first), b, parents, second);
      } else {
        assert Keep(level, parents, first) == Keep(init, parents, first);
      }
    }
  }

  lemma KeepAppend(level: Level, b: BlockOverlay, parents: Parents, doomed: set<BlockHash>)
    ensures Keep(level + [b], parents, doomed)
         == Keep(level, parents, doomed) + (if ChildOf(parents, b.hash, doomed) then [] else [b])
  {
    assert (level + [b])[..|level|] == level;
  }

  ghost predicate Agree(p: Parents, q: Parents, on: set<BlockHash>) {
    forall h :: h in on ==> (h in p <==> h in q) && (h in p ==> p[h] == q[h])
  }

  /** Discarding looks up the parents of the blocks on the levels and no others. */
  lemma {:induction false} DiscardReadsOwnParents(levels: seq<Level>, p: Parents, q: Parents, doomed: set<BlockHash>)
    requires Agree(p, q, AllHashes(levels))
    ensures Survivors(levels, p, doomed) == Survivors(levels, q, doomed)
    ensures Removed(levels, p, doomed) == Removed(levels, q, doomed)
    ensures RemovedKeys(levels, p, doomed) == RemovedKeys(levels, q, doomed)
  {
    if levels != [] {
      KeepReadsOwnParents(levels[0], p, q, doomed);
      assert forall b :: b in levels[0] ==> b.hash in Hashes(levels[0]);
      assert Fallen(levels[0], p, doomed) == Fallen(levels[0], q, doomed);
      assert FallenKeys(levels[0], p, doomed) == FallenKeys(levels[0], q, doomed);
      DiscardReadsOwnParents(levels[1..], p, q, Fallen(levels[0], p, doomed));
    }
  }

  lemma {:induction false} KeepReadsOwnParents(level: Level, p: Parents, q: Parents, doomed: set<BlockHash>)
    requires Agree(p, q, Hashes(level))
    ensures Keep(level, p, doomed) == Keep(level, q, doomed)
  {
    if level != [] {
      KeepReadsOwnParents(level[..|level| - 1], p, q, doomed);
      assert level[|level| - 1] in level;
    }
  }
}
