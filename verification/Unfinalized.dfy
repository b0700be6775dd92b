/** The finalization window: insertion of blocks, and finalization of a root with the
    recursive discarding of the losing subtrees. */
module Unfinalized {
  import opened Primitives
  import opened Commits
  import opened Forests

  /** What `insert` asserts of its caller. */
  predicate CanInsert(f: Forest, number: nat, parent: BlockHash) {
    && number >= 1
    && if f.lastFinalized.None? then f.levels == []
       else
         && f.Front() <= number <= f.Front() + |f.levels|
         && if number == f.Front() then f.lastFinalized.value.0 == parent else parent in f.parents
  }

  /** The forest a first insertion starts from: its parent counts as finalized. */
  function Grounded(f: Forest, number: nat, parent: BlockHash): Forest
    requires number >= 1
  {
    if f.lastFinalized.None? then f.(lastFinalized := Some((parent, number - 1))) else f
  }

  function Inserted(f: Forest, record: BlockRecord, number: nat): Forest
    requires CanInsert(f, number, record.parent)
  {
    var f := Grounded(f, number, record.parent);
    var i := number - f.Front();
    var levels := if i == |f.levels| then f.levels + [[]] else f.levels;
    var overlay := OverlayOf(record, BlockJournal(number, |levels[i]|));
    f.(levels := levels[i := levels[i] + [overlay]], parents := f.parents[record.hash := record.parent])
  }

  function OverlayOf(record: BlockRecord, journalKey: MetaKey): BlockOverlay {
    BlockOverlay(record.hash, journalKey, Collect(record.inserted), record.deleted)
  }

  /** The journal index the next block on the level of `number` is given. */
  function NextIndex(f: Forest, number: nat): nat {
    if f.Front() <= number < f.Front() + |f.levels| then |f.levels[number - f.Front()]| else 0
  }

  /** An insertion writes metadata only: the journal record and, the first time, the block
      that counts as finalized. */
  function InsertCommit(f: Forest, record: BlockRecord, number: nat): CommitSet
    requires number >= 1
  {
    var started := if f.lastFinalized.None? then [(LastFinalized, FinalizedAt(record.parent, number - 1))] else [];
    var key := BlockJournal(number, NextIndex(f, number));
    EMPTY_COMMIT.(meta := ChangeSet(started + [(key, Journaled(record))], []))
  }

  ghost predicate CanFinalize(f: Forest, hash: BlockHash) {
    f.lastFinalized.Some? && f.levels != [] && hash in Hashes(f.levels[0])
  }

  ghost function Losers(f: Forest, hash: BlockHash): set<BlockHash>
    requires f.levels != []
  {
    Hashes(f.levels[0]) - {hash}
  }

  ghost function Finalized(f: Forest, hash: BlockHash): Forest
    requires CanFinalize(f, hash)
  {
    Forest(Some((hash, f.Front())),
           Survivors(f.levels[1..], f.parents, Losers(f, hash)),
           f.parents - (Hashes(f.levels[0]) + Removed(f.levels[1..], f.parents, Losers(f, hash))))
  }

  ghost function KeysOf(level: Level): set<MetaKey> {
    set b | b in level :: b.journalKey
  }

  /** The journal keys of the finalized level and of every discarded block. */
  ghost function DroppedKeys(f: Forest, hash: BlockHash): set<MetaKey>
    requires f.levels != []
  {
    KeysOf(f.levels[0]) + RemovedKeys(f.levels[1..], f.parents, Losers(f, hash))
  }

  class UnfinalizedOverlay {
    var lastFinalized: Option<(BlockHash, nat)>
    var levels: seq<Level>
    var parents: Parents

    function Contents(): Forest
      reads this
    {
      Forest(lastFinalized, levels, parents)
    }

    constructor (f: Forest)
      ensures Contents() == f
    {
      lastFinalized, levels, parents := f.lastFinalized, f.levels, f.parents;
    }

    function FrontBlockNumber(): nat
      reads this
    {
      if lastFinalized.Some? then lastFinalized.value.1 + 1 else 0
    }

    method Insert(hash: BlockHash, number: nat, parent: BlockHash, changes: ChangeSet<Key, DBValue>)
      returns (commit: CommitSet)
      requires CanInsert(Contents(), number, parent)
      modifies this
      ensures var record := BlockRecord(hash, parent, changes.inserted, changes.deleted);
              && Contents() == Inserted(old(Contents()), record, number)
              && commit == InsertCommit(old(Contents()), record, number)
    {
      var meta: seq<(MetaKey, MetaValue)> := [];
      if levels == [] && lastFinalized.None? {
        meta := meta + [(LastFinalized, FinalizedAt(parent, number - 1))];
        lastFinalized := Some((parent, number - 1));
      }
      if levels == [] || number == FrontBlockNumber() + |levels| {
        levels := levels + [[]];
      }
      var i := number - FrontBlockNumber();
      var journalKey := BlockJournal(number, |levels[i]|);
      var overlay := BlockOverlay(hash, journalKey, Collect(changes.inserted), changes.deleted);
      levels := levels[i := levels[i] + [overlay]];
      parents := parents[hash := parent];
      meta := meta + [(journalKey, Journaled(BlockRecord(hash, parent, changes.inserted, changes.deleted)))];
      commit := EMPTY_COMMIT.(meta := ChangeSet(meta, []));
    }

    /** Removes every block that descends from `hash`, depth first. */
    static method Discard(levels: seq<Level>, parents: Parents, journals: seq<MetaKey>, hash: BlockHash)
      returns (levels': seq<Level>, parents': Parents, journals': seq<MetaKey>)
      requires Distinct(levels) && AllHashes(levels) <= parents.Keys
      ensures levels' == Survivors(levels, parents, {hash})
      ensures parents' == parents - Removed(levels, parents, {hash})
      ensures Elems(journals') == Elems(journals) + RemovedKeys(levels, parents, {hash})
      decreases |levels|
    {
      if levels == [] {
        return levels, parents, journals;
      }
      var level, sublevels := levels[0], levels[1..];
      ghost var below := sublevels;
      var kept: Level := [];
      parents', journals' := parents, journals;
      DiscardBegins(level, below, parents, journals, hash);
      for i := 0 to |level|
        invariant Discarding(level, below, parents, journals, hash, i, kept, sublevels, parents', journals')
      {
        var overlay := level[i];
        ghost var sub, current, dropped := sublevels, parents', journals';
        DiscardReady(level, below, parents, journals, hash, i, kept, sub, current, dropped);
        if parents'[overlay.hash] == hash {
          sublevels, parents', journals' :=
            Discard(sublevels, parents' - {overlay.hash}, journals' + [overlay.journalKey], overlay.hash);
          DiscardDrops(level, below, parents, journals, hash, i, kept, sub, current, dropped, journals');
        } else {
          kept := kept + [overlay];
          DiscardKeeps(level, below, parents, journals, hash, i, kept[..|kept| - 1], sub, current, dropped);
        }
      }
      assert level[..|level|] == level;
      levels' := [kept] + sublevels;
    }

    /** The state of `Discard` after the first `i` blocks of the top level. */
    static ghost predicate Discarding(level: Level, below: seq<Level>, parents: Parents, journals: seq<MetaKey>, hash: BlockHash,
                                      i: nat, kept: Level, sub: seq<Level>, current: Parents, dropped: seq<MetaKey>)
      requires i <= |level|
    {
      var fallen := Fallen(level[..i], parents, {hash});
      && kept == Keep(level[..i], parents, {hash})
      && Swept(below, parents, journals, fallen, fallen, FallenKeys(level[..i], parents, {hash}), sub, current, dropped)
    }

    static lemma DiscardBegins(level: Level, below: seq<Level>, parents: Parents, journals: seq<MetaKey>, hash: BlockHash)
      ensures Discarding(level, below, parents, journals, hash, 0, [], below, parents, journals)
    {
      DiscardNothing(below, parents);
      assert Fallen(level[..0], parents, {hash}) == {};
    }

    static lemma DiscardReady(level: Level, below: seq<Level>, parents: Parents, journals: seq<MetaKey>, hash: BlockHash,
                              i: nat, kept: Level, sub: seq<Level>, current: Parents, dropped: seq<MetaKey>)
      requires i < |level| && NoRepeat(level) && Hashes(level) !! AllHashes(below)
      requires Distinct(below) && Hashes(level) + AllHashes(below) <= parents.Keys
      requires Discarding(level, below, parents, journals, hash, i, kept, sub, current, dropped)
      ensures level[i].hash in current && current[level[i].hash] == parents[level[i].hash]
      ensures Distinct(sub) && AllHashes(sub) <= (current - {level[i].hash}).Keys
    {
      var fallen := Fallen(level[..i], parents, {hash});
      NextIsPresent(level, below, parents, i, fallen);
      SweepReady(below, parents, journals, fallen, fallen, FallenKeys(level[..i], parents, {hash}), sub, current, dropped, level[i]);
    }

    static lemma DiscardKeeps(level: Level, below: seq<Level>, parents: Parents, journals: seq<MetaKey>, hash: BlockHash,
                              i: nat, kept: Level, sub: seq<Level>, current: Parents, dropped: seq<MetaKey>)
      requires i < |level| && !ChildOf(parents, level[i].hash, {hash})
      requires Discarding(level, below, parents, journals, hash, i, kept, sub, current, dropped)
      ensures Discarding(level, below, parents, journals, hash, i + 1, kept + [level[i]], sub, current, dropped)
    {
      FallenNext(level, i, parents, {hash});
    }

    static lemma DiscardDrops(level: Level, below: seq<Level>, parents: Parents, journals: seq<MetaKey>, hash: BlockHash,
                              i: nat, kept: Level, sub: seq<Level>, current: Parents, dropped: seq<MetaKey>, dropped': seq<MetaKey>)
      requires i < |level| && NoRepeat(level) && Hashes(level) !! AllHashes(below)
      requires Distinct(below) && Hashes(level) + AllHashes(below) <= parents.Keys
      requires ChildOf(parents, level[i].hash, {hash})
      requires Discarding(level, below, parents, journals, hash, i, kept, sub, current, dropped)
      requires var b := level[i];
               Elems(dropped') == Elems(dropped + [b.journalKey]) + RemovedKeys(sub, current - {b.hash}, {b.hash})
      ensures var h := level[i].hash;
              var next := current - {h};
              Discarding(level, below, parents, journals, hash, i + 1, kept, Survivors(sub, next, {h}), next - Removed(sub, next, {h}), dropped')
    {
      var fallen := Fallen(level[..i], parents, {hash});
      NextIsPresent(level, below, parents, i, fallen);
      FallenNext(level, i, parents, {hash});
      ElemsAppend(dropped, [level[i].journalKey]);
      SweepStep(below, parents, journals, fallen, fallen, FallenKeys(level[..i], parents, {hash}), sub, current, dropped, level[i], dropped');
    }

    /** What is left of the levels below, of the parent map and of the journal, once the
        blocks `gone` are removed above them, and the descendants of `fallen` among them. */
    static ghost predicate Swept(below: seq<Level>, parents: Parents, journals: seq<MetaKey>,
                                 gone: set<BlockHash>, fallen: set<BlockHash>, goneKeys: set<MetaKey>,
                                 sub: seq<Level>, current: Parents, dropped: seq<MetaKey>) {
      && sub == Survivors(below, parents, fallen)
      && current == parents - (gone + Removed(below, parents, fallen))
      && Elems(dropped) == Elems(journals) + goneKeys + RemovedKeys(below, parents, fallen)
    }

    static lemma {:induction false} DiscardNothing(levels: seq<Level>, parents: Parents)
      ensures Survivors(levels, parents, {}) == levels
      ensures Removed(levels, parents, {}) == {} && RemovedKeys(levels, parents, {}) == {}
    {
      if levels != [] {
        assert Fallen(levels[0], parents, {}) == {};
        KeepAll(levels[0], parents);
        DiscardNothing(levels[1..], parents);
      }
    }

    static lemma {:induction false} KeepAll(level: Level, parents: Parents)
      ensures Keep(level, parents, {}) == level
    {
      if level != [] {
        KeepAll(level[..|level| - 1], parents);
      }
    }

    static lemma FallenNext(level: Level, i: nat, parents: Parents, doomed: set<BlockHash>)
      requires i < |level|
      ensures var seen, next, b := level[..i], level[..i + 1], level[i];
              if ChildOf(parents, b.hash, doomed)
              then Keep(next, parents, doomed) == Keep(seen, parents, doomed)
                   && Fallen(next, parents, doomed) == Fallen(seen, parents, doomed) + {b.hash}
                   && FallenKeys(next, parents, doomed) == FallenKeys(seen, parents, doomed) + {b.journalKey}
              else Keep(next, parents, doomed) == Keep(seen, parents, doomed) + [b]
                   && Fallen(next, parents, doomed) == Fallen(seen, parents, doomed)
                   && FallenKeys(next, parents, doomed) == FallenKeys(seen, parents, doomed)
    {
      assert level[..i + 1] == level[..i] + [level[i]];
      KeepAppend(level[..i], level[i], parents, doomed);
    }

    /** The parent of a block is still recorded when its turn comes. */
    static lemma NextIsPresent(level: Level, below: seq<Level>, parents: Parents, i: nat, fallen: set<BlockHash>)
      requires i < |level| && NoRepeat(level) && Hashes(level) !! AllHashes(below)
      requires fallen <= Hashes(level[..i])
      ensures level[i].hash in Hashes(level) && level[i].hash !in fallen + Removed(below, parents, fallen)
      ensures Hashes(level[..i + 1]) == Hashes(level[..i]) + {level[i].hash} <= Hashes(level)
    {
      RemovedBelongs(below, parents, fallen);
      assert level[..i + 1] == level[..i] + [level[i]];
      assert forall b :: b in level[..i + 1] ==> b in level;
    }

    static lemma SweepReady(below: seq<Level>, parents: Parents, journals: seq<MetaKey>,
                            gone: set<BlockHash>, fallen: set<BlockHash>, goneKeys: set<MetaKey>,
                            sub: seq<Level>, current: Parents, dropped: seq<MetaKey>, b: BlockOverlay)
      requires Distinct(below) && AllHashes(below) <= parents.Keys
      requires AllHashes(below) !! gone + {b.hash}
      requires Swept(below, parents, journals, gone, fallen, goneKeys, sub, current, dropped)
      ensures Distinct(sub) && AllHashes(sub) <= (current - {b.hash}).Keys
      ensures Agree(parents, current - {b.hash}, AllHashes(sub))
    {
      SurvivorsHashes(below, parents, fallen);
    }

    /** Discarding one more subtree from what earlier discards left. */
    static lemma SweepStep(below: seq<Level>, parents: Parents, journals: seq<MetaKey>,
                           gone: set<BlockHash>, fallen: set<BlockHash>, goneKeys: set<MetaKey>,
                           sub: seq<Level>, current: Parents, dropped: seq<MetaKey>, b: BlockOverlay, dropped': seq<MetaKey>)
      requires Distinct(below) && AllHashes(below) <= parents.Keys
      requires AllHashes(below) !! gone + {b.hash}
      requires Swept(below, parents, journals, gone, fallen, goneKeys, sub, current, dropped)
      requires Elems(dropped') == Elems(dropped) + {b.journalKey} + RemovedKeys(sub, current - {b.hash}, {b.hash})
      ensures var next := current - {b.hash};
              Swept(below, parents, journals, gone + {b.hash}, fallen + {b.hash}, goneKeys + {b.journalKey},
                    Survivors(sub, next, {b.hash}), next - Removed(sub, next, {b.hash}), dropped')
    {
      var next, first, second := current - {b.hash}, Removed(below, parents, fallen), Removed(sub, parents, {b.hash});
      SweepReady(below, parents, journals, gone, fallen, goneKeys, sub, current, dropped, b);
      MinusUnion(parents, gone + first, {b.hash});
      DiscardReadsOwnParents(sub, parents, next, {b.hash});
      DiscardsCompose(below, parents, fallen, {b.hash});
      MinusUnion(parents, gone + first + {b.hash}, second);
      assert gone + first + {b.hash} + second == (gone + {b.hash}) + (first + second);
    }

    method Finalize(hash: BlockHash) returns (commit: CommitSet)
      requires Distinct(levels) && parents.Keys == AllHashes(levels)
      requires CanFinalize(Contents(), hash)
      modifies this
      ensures Contents() == Finalized(old(Contents()), hash)
      ensures exists b :: b in old(levels[0]) && b.hash == hash && Carries(commit.data, b)
      ensures commit.meta.inserted == [(LastFinalized, FinalizedAt(hash, old(FrontBlockNumber())))]
      ensures Elems(commit.meta.deleted) == DroppedKeys(old(Contents()), hash)
    {
      var f, data, discarded := FinalizeRoot(Contents(), hash);
      commit := CommitSet(data, ChangeSet([(LastFinalized, FinalizedAt(hash, FrontBlockNumber()))], discarded));
      levels, parents, lastFinalized := f.levels, f.parents, f.lastFinalized;
    }

    static method FinalizeRoot(f: Forest, hash: BlockHash)
      returns (f': Forest, data: ChangeSet<Key, DBValue>, discarded: seq<MetaKey>)
      requires Distinct(f.levels) && f.parents.Keys == AllHashes(f.levels)
      requires CanFinalize(f, hash)
      ensures f' == Finalized(f, hash)
      ensures exists b :: b in f.levels[0] && b.hash == hash && Carries(data, b)
      ensures Elems(discarded) == DroppedKeys(f, hash)
    {
      var left, current;
      left, current, data, discarded := Sift(f.levels[0], f.levels[1..], f.parents, hash);
      f' := Forest(Some((hash, f.Front())), left, current);
      ghost var winner :| winner in f.levels[0] && winner.hash == hash;
      assert Carries(data, winner);
    }

    /** Goes over the roots: the winner's changes are collected, the other subtrees discarded. */
    static method Sift(level: Level, below: seq<Level>, parents: Parents, hash: BlockHash)
      returns (left: seq<Level>, current: Parents, data: ChangeSet<Key, DBValue>, discarded: seq<MetaKey>)
      requires NoRepeat(level) && Hashes(level) !! AllHashes(below)
      requires Distinct(below) && Hashes(level) + AllHashes(below) <= parents.Keys
      ensures left == Survivors(below, parents, Hashes(level) - {hash})
      ensures current == parents - (Hashes(level) + Removed(below, parents, Hashes(level) - {hash}))
      ensures Elems(discarded) == KeysOf(level) + RemovedKeys(below, parents, Hashes(level) - {hash})
      ensures forall b :: b in level && b.hash == hash ==> Carries(data, b)
    {
      left, current, data, discarded := below, parents, ChangeSet([], []), [];
      SiftBegins(level, below, parents, hash);
      for i := 0 to |level|
        invariant Sifting(level, below, parents, hash, i, left, current, discarded)
        invariant forall b :: b in level[..i] && b.hash == hash ==> Carries(data, b)
      {
        var overlay := level[i];
        ghost var left0, current0, dropped := left, current, discarded;
        SiftReady(level, below, parents, hash, i, left0, current0, dropped);
        current := current - {overlay.hash};
        if overlay.hash == hash {
          var inserted := Drain(overlay.values);
          data := ChangeSet(inserted, overlay.deleted);
          SiftWinner(level, below, parents, i, left0, current0, dropped);
        } else {
          left, current, discarded := Discard(left, current, discarded, overlay.hash);
          SiftLoser(level, below, parents, hash, i, left0, current0, dropped, discarded);
        }
        discarded := discarded + [overlay.journalKey];
      }
      assert level[..|level|] == level;
    }

    static lemma SiftBegins(level: Level, below: seq<Level>, parents: Parents, hash: BlockHash)
      ensures Sifting(level, below, parents, hash, 0, below, parents, [])
    {
      DiscardNothing(below, parents);
      assert Hashes(level[..0]) - {hash} == {};
    }

    /** The state of `Finalize` after the first `i` roots. */
    static ghost predicate Sifting(level: Level, below: seq<Level>, parents: Parents, hash: BlockHash, i: nat,
                                   left: seq<Level>, current: Parents, dropped: seq<MetaKey>)
      requires i <= |level|
    {
      var seen := Hashes(level[..i]);
      Swept(below, parents, [], seen, seen - {hash}, KeysOf(level[..i]), left, current, dropped)
    }

    static lemma SiftReady(level: Level, below: seq<Level>, parents: Parents, hash: BlockHash, i: nat,
                           left: seq<Level>, current: Parents, dropped: seq<MetaKey>)
      requires i < |level| && NoRepeat(level) && Hashes(level) !! AllHashes(below)
      requires Distinct(below) && Hashes(level) + AllHashes(below) <= parents.Keys
      requires Sifting(level, below, parents, hash, i, left, current, dropped)
      ensures Distinct(left) && AllHashes(left) <= (current - {level[i].hash}).Keys
    {
      var seen := Hashes(level[..i]);
      NextIsPresent(level, below, parents, i, seen - {hash});
      SweepReady(below, parents, [], seen, seen - {hash}, KeysOf(level[..i]), left, current, dropped, level[i]);
    }

    static lemma SiftWinner(level: Level, below: seq<Level>, parents: Parents, i: nat,
                            left: seq<Level>, current: Parents, dropped: seq<MetaKey>)
      requires i < |level|
      requires Sifting(level, below, parents, level[i].hash, i, left, current, dropped)
      ensures Sifting(level, below, parents, level[i].hash, i + 1, left, current - {level[i].hash}, dropped + [level[i].journalKey])
    {
      var seen, b := Hashes(level[..i]), level[i];
      assert level[..i + 1] == level[..i] + [b];
      assert Hashes(level[..i + 1]) == seen + {b.hash} && KeysOf(level[..i + 1]) == KeysOf(level[..i]) + {b.journalKey};
      assert seen + {b.hash} - {b.hash} == seen - {b.hash};
      MinusUnion(parents, seen + Removed(below, parents, seen - {b.hash}), {b.hash});
      ElemsAppend(dropped, [b.journalKey]);
    }

    static lemma SiftLoser(level: Level, below: seq<Level>, parents: Parents, hash: BlockHash, i: nat,
                           left: seq<Level>, current: Parents, dropped: seq<MetaKey>, dropped': seq<MetaKey>)
      requires i < |level| && NoRepeat(level) && Hashes(level) !! AllHashes(below) && level[i].hash != hash
      requires Distinct(below) && Hashes(level) + AllHashes(below) <= parents.Keys
      requires Sifting(level, below, parents, hash, i, left, current, dropped)
      requires var h := level[i].hash;
               Elems(dropped') == Elems(dropped) + RemovedKeys(left, current - {h}, {h})
      ensures var h := level[i].hash;
              var next := current - {h};
              Sifting(level, below, parents, hash, i + 1, Survivors(left, next, {h}), next - Removed(left, next, {h}),
                      dropped' + [level[i].journalKey])
    {
      var seen, b := Hashes(level[..i]), level[i];
      NextIsPresent(level, below, parents, i, seen - {hash});
      assert level[..i + 1] == level[..i] + [b];
      assert KeysOf(level[..i + 1]) == KeysOf(level[..i]) + {b.journalKey};
      assert seen + {b.hash} - {hash} == (seen - {hash}) + {b.hash};
      ElemsAppend(dropped', [b.journalKey]);
      SweepStep(below, parents, [], seen, seen - {hash}, KeysOf(level[..i]), left, current, dropped, b, dropped' + [b.journalKey]);
    }

    static ghost predicate Carries(data: ChangeSet<Key, DBValue>, b: BlockOverlay) {
      Collect(data.inserted) == b.values && |data.inserted| == |b.values| && data.deleted == b.deleted
    }

    /** The first block, in order of the levels, that inserted the key. */
    static ghost predicate FirstHolder(levels: seq<Level>, key: Key, i: nat, j: nat) {
      && i < |levels| && j < |levels[i]| && key in levels[i][j].values
      && (forall m, n :: 0 <= m < i && 0 <= n < |levels[m]| ==> key !in levels[m][n].values)
      && (forall n :: 0 <= n < j ==> key !in levels[i][n].values)
    }

    /** Looks a key up in every block of the window. */
    method Get(key: Key) returns (r: Option<DBValue>)
      ensures r.Some? <==> exists i, j :: 0 <= i < |levels| && 0 <= j < |levels[i]| && key in levels[i][j].values
      ensures r.Some? ==> exists i: nat, j: nat :: FirstHolder(levels, key, i, j) && levels[i][j].values[key] == r.value
    {
      for i := 0 to |levels|
        invariant forall m, j :: 0 <= m < i && 0 <= j < |levels[m]| ==> key !in levels[m][j].values
      {
        for j := 0 to |levels[i]|
          invariant forall n :: 0 <= n < j ==> key !in levels[i][n].values
        {
          if key in levels[i][j].values {
            assert FirstHolder(levels, key, i, j);
            return Some(levels[i][j].values[key]);
          }
        }
      }
      r := None;
    }
  }
}
