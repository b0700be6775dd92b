/** The state database: the finalization window and the pruning window composed, with the
    prune loop and pinned blocks. */
module StateDb {
  import opened Primitives
  import opened Commits
  import opened Forests
  import opened Unfinalized
  import opened Pruning

  datatype PruningMode =
    | Constrained(maxBlocks: Option<nat>)
    | ArchiveAll
    | ArchiveCanonical

  function MaxBlocks(mode: PruningMode): nat
    requires mode.Constrained?
  {
    if mode.maxBlocks.Some? then mode.maxBlocks.value else 0
  }

  // ---------- What the prune loop does ----------

  /** The keys on the first `n` rows. */
  ghost function DyingFirst(w: Window, n: nat): set<Key>
    requires n <= |w.rows|
  {
    set i, k | 0 <= i < n && k in w.rows[i].deleted :: k
  }

  ghost function PrunedBy(w: Window, n: nat): Window
    requires n <= |w.rows|
  {
    Window(w.pending + n, w.rows[n..], w.index - DyingFirst(w, n))
  }

  /** The loop prunes `n` blocks: each one because the window was too long and its front not
      pinned, and it stops because one of the two no longer holds. */
  ghost predicate Prunes(w: Window, maxBlocks: nat, pinned: set<BlockHash>, n: nat) {
    && n <= |w.rows|
    && MustGo(w, maxBlocks, pinned, n)
    && (|w.rows| - n <= maxBlocks || w.rows[n].hash in pinned)
  }

  ghost predicate MustGo(w: Window, maxBlocks: nat, pinned: set<BlockHash>, n: nat)
    requires n <= |w.rows|
  {
    forall i :: 0 <= i < n ==> |w.rows| - i > maxBlocks && w.rows[i].hash !in pinned
  }

  /** The last-pruned markers that `n` prunings write. */
  ghost function PruneMarks(pending: nat, n: nat): seq<(MetaKey, MetaValue)> {
    if n == 0 then [] else PruneMarks(pending, n - 1) + [(LastPruned, PrunedAt(pending + (n - 1)))]
  }

  ghost function PrunedJournals(w: Window, n: nat): set<MetaKey>
    requires n <= |w.rows|
  {
    set i | 0 <= i < n :: w.rows[i].journalKey
  }

  ghost predicate PruneCommits(w: Window, n: nat, before: CommitSet, after: CommitSet)
    requires n <= |w.rows|
  {
    && after.data.inserted == before.data.inserted
    && Elems(after.data.deleted) == Elems(before.data.deleted) + DyingFirst(w, n)
    && after.meta.inserted == before.meta.inserted + PruneMarks(w.pending, n)
    && Elems(after.meta.deleted) == Elems(before.meta.deleted) + PrunedJournals(w, n)
  }

  lemma PrunedOneMore(w: Window, n: nat)
    requires n < |w.rows|
    ensures DyingFirst(w, n + 1) == DyingFirst(w, n) + w.rows[n].deleted
    ensures PrunedBy(w, n + 1) == Pruned(PrunedBy(w, n))
  {
    assert DyingFirst(w, n + 1) == DyingFirst(w, n) + w.rows[n].deleted;
    MinusUnion(w.index, DyingFirst(w, n), w.rows[n].deleted);
  }

  lemma PruneOneMore(w: Window, n: nat, before: CommitSet, c: CommitSet, c': CommitSet)
    requires n < |w.rows| && PruneCommits(w, n, before, c)
    requires c'.data.inserted == c.data.inserted
    requires Elems(c'.data.deleted) == Elems(c.data.deleted) + w.rows[n].deleted
    requires c'.meta.inserted == c.meta.inserted + [(LastPruned, PrunedAt(w.pending + n))]
    requires c'.meta.deleted == c.meta.deleted + [w.rows[n].journalKey]
    ensures PruneCommits(w, n + 1, before, c')
  {
    PrunedOneMore(w, n);
    ElemsAppend(c.meta.deleted, [w.rows[n].journalKey]);
    assert Elems([w.rows[n].journalKey]) == {w.rows[n].journalKey};
    assert PrunedJournals(w, n + 1) == PrunedJournals(w, n) + {w.rows[n].journalKey};
  }

  function NextDeathKey(w: Window): MetaKey {
    DeathJournal(w.pending + |w.rows|)
  }

  /** A finalization's commit once the window has taken over its deletions. */
  function NotedCommit(hash: BlockHash, commit: CommitSet, journalKey: MetaKey): CommitSet {
    CommitSet(
      ChangeSet(commit.data.inserted, []),
      ChangeSet(commit.meta.inserted + [(journalKey, Condemned(Noted(hash, commit.data)))], commit.meta.deleted))
  }

  // ---------- Finalization in a constrained database ----------

  /** One call of `finalize_block` in constrained mode: the forest loses the finalized level
      and the losing subtrees, the window imports the winner's deletions and is pruned
      `n` times, and `commit` carries the combined changes. */
  ghost predicate FinalizeStep(f: Forest, w: Window, maxBlocks: nat, pinned: set<BlockHash>, hash: BlockHash,
                               winner: BlockOverlay, noted: Window, n: nat, commit: CommitSet)
  {
    && CanFinalize(f, hash)
    && winner in f.levels[0] && winner.hash == hash
    && Collect(commit.data.inserted) == winner.values
    && var record := Noted(hash, ChangeSet(commit.data.inserted, winner.deleted));
       var journalKey := NextDeathKey(w);
       && Imports(w, record, journalKey, noted)
       && Prunes(noted, maxBlocks, pinned, n)
       && Elems(commit.data.deleted) == DyingFirst(noted, n)
       && commit.meta.inserted ==
            [(LastFinalized, FinalizedAt(hash, f.Front()))] + [(journalKey, Condemned(record))] + PruneMarks(noted.pending, n)
       && Elems(commit.meta.deleted) == DroppedKeys(f, hash) + PrunedJournals(noted, n)
  }

  class StateDbSync {
    const mode: PruningMode
    const unfinalized: UnfinalizedOverlay
    const pruning: RefWindow?
    var pinned: set<BlockHash>

    ghost predicate Valid()
      reads this, unfinalized, pruning
    {
      && (mode.Constrained? <==> pruning != null)
      && Distinct(unfinalized.levels) && unfinalized.parents.Keys == AllHashes(unfinalized.levels)
      && (pruning != null ==> InBounds(pruning.Contents()))
    }

    constructor (mode: PruningMode, unfinalized: UnfinalizedOverlay, pruning: RefWindow?)
      ensures this.mode == mode && this.unfinalized == unfinalized && this.pruning == pruning && pinned == {}
    {
      this.mode, this.unfinalized, this.pruning, this.pinned := mode, unfinalized, pruning, {};
    }

    method InsertBlock(hash: BlockHash, number: nat, parent: BlockHash, changes: ChangeSet<Key, DBValue>)
      returns (commit: CommitSet)
      requires number == 0 || mode.ArchiveAll? || CanInsert(unfinalized.Contents(), number, parent)
      modifies unfinalized
      ensures number == 0 || mode.ArchiveAll? ==>
                && unfinalized.Contents() == old(unfinalized.Contents())
                && commit == EMPTY_COMMIT.(data := if number == 0 then changes else ChangeSet(changes.inserted, []))
      ensures number != 0 && !mode.ArchiveAll? ==>
                var record := BlockRecord(hash, parent, changes.inserted, changes.deleted);
                && unfinalized.Contents() == Inserted(old(unfinalized.Contents()), record, number)
                && commit == InsertCommit(old(unfinalized.Contents()), record, number)
    {
      if number == 0 {
        return EMPTY_COMMIT.(data := changes);
      }
      match mode {
        case ArchiveAll =>
          commit := EMPTY_COMMIT.(data := ChangeSet(changes.inserted, []));
        case _ =>
          commit := unfinalized.Insert(hash, number, parent, changes);
      }
    }

    method FinalizeBlock(hash: BlockHash) returns (commit: CommitSet)
      requires Valid() && (mode.ArchiveAll? || CanFinalize(unfinalized.Contents(), hash))
      modifies unfinalized, pruning
      ensures mode.ArchiveAll? ==> commit == EMPTY_COMMIT && unfinalized.Contents() == old(unfinalized.Contents())
      ensures !mode.ArchiveAll? ==> unfinalized.Contents() == Finalized(old(unfinalized.Contents()), hash)
      ensures mode.ArchiveCanonical? ==>
                && (exists b :: b in old(unfinalized.levels[0]) && b.hash == hash && Collect(commit.data.inserted) == b.values)
                && commit.data.deleted == []
                && commit.meta.inserted == [(LastFinalized, FinalizedAt(hash, old(unfinalized.FrontBlockNumber())))]
                && Elems(commit.meta.deleted) == DroppedKeys(old(unfinalized.Contents()), hash)
      ensures mode.Constrained? ==> exists winner, noted, n: nat ::
                && FinalizeStep(old(unfinalized.Contents()), old(pruning.Contents()), MaxBlocks(mode), pinned, hash, winner, noted, n, commit)
                && pruning.Contents() == PrunedBy(noted, n)
    {
      commit := EMPTY_COMMIT;
      if !mode.ArchiveAll? {
        commit := unfinalized.Finalize(hash);
        if mode.ArchiveCanonical? {
          commit := commit.(data := commit.data.(deleted := []));
        }
      }
      if pruning != null {
        ghost var f, w, finalized := old(unfinalized.Contents()), old(pruning.Contents()), commit;
        ghost var winner :| winner in f.levels[0] && winner.hash == hash && UnfinalizedOverlay.Carries(commit.data, winner);
        ghost var noted, n;
        commit, noted, n := NoteAndPrune(hash, commit);
        FinalizeComposes(f, w, MaxBlocks(mode), pinned, hash, winner, finalized, noted, n, commit);
      }
    }

    /** The pruning window's part of a finalization. */
    method NoteAndPrune(hash: BlockHash, commit: CommitSet) returns (c: CommitSet, ghost noted: Window, ghost n: nat)
      requires mode.Constrained? && pruning != null && InBounds(pruning.Contents())
      modifies pruning
      ensures Imports(old(pruning.Contents()), Noted(hash, commit.data), NextDeathKey(old(pruning.Contents())), noted)
      ensures Prunes(noted, MaxBlocks(mode), pinned, n)
      ensures PruneCommits(noted, n, NotedCommit(hash, commit, NextDeathKey(old(pruning.Contents()))), c)
      ensures pruning.Contents() == PrunedBy(noted, n)
    {
      c := pruning.NoteFinalized(hash, commit);
      noted := pruning.Contents();
      c, n := Prune(c);
    }

    static lemma FinalizeComposes(f: Forest, w: Window, maxBlocks: nat, pinned: set<BlockHash>, hash: BlockHash, winner: BlockOverlay,
                                  finalized: CommitSet, noted: Window, n: nat, after: CommitSet)
      requires CanFinalize(f, hash) && winner in f.levels[0] && winner.hash == hash
      requires UnfinalizedOverlay.Carries(finalized.data, winner)
      requires finalized.meta.inserted == [(LastFinalized, FinalizedAt(hash, f.Front()))]
      requires Elems(finalized.meta.deleted) == DroppedKeys(f, hash)
      requires Imports(w, Noted(hash, finalized.data), NextDeathKey(w), noted)
      requires Prunes(noted, maxBlocks, pinned, n)
      requires PruneCommits(noted, n, NotedCommit(hash, finalized, NextDeathKey(w)), after)
      ensures FinalizeStep(f, w, maxBlocks, pinned, hash, winner, noted, n, after)
    {
      assert finalized.data == ChangeSet(after.data.inserted, winner.deleted);
      assert Elems(NotedCommit(hash, finalized, NextDeathKey(w)).data.deleted) == {};
    }

    /** Prunes until the window is short enough or its front block is pinned. */
    method Prune(commit: CommitSet) returns (c: CommitSet, ghost n: nat)
      requires mode.Constrained? && pruning != null
      modifies pruning
      ensures Prunes(old(pruning.Contents()), MaxBlocks(mode), pinned, n)
      ensures PruneCommits(old(pruning.Contents()), n, commit, c)
      ensures pruning.Contents() == PrunedBy(old(pruning.Contents()), n)
      ensures mode.maxBlocks.None? && pinned == {} ==> pruning.deathRows == []
    {
      ghost var w, pins, max := pruning.Contents(), pinned, MaxBlocks(mode);
      c, n := commit, 0;
      assert w.index - {} == w.index;
      while |pruning.deathRows| > MaxBlocks(mode) && pruning.deathRows[0].hash !in pinned
        invariant n <= |w.rows| && pruning.Contents() == PrunedBy(w, n)
        invariant pins == pinned && max == MaxBlocks(mode) && MustGo(w, max, pins, n)
        invariant PruneCommits(w, n, commit, c)
        decreases |pruning.deathRows|
      {
        ghost var c0 := c;
        c := pruning.PruneOne(c);
        PruneOneMore(w, n, commit, c0, c);
        PrunedOneMore(w, n);
        n := n + 1;
      }
    }

    method Pin(hash: BlockHash)
      modifies this
      ensures pinned == old(pinned) + {hash}
    {
      pinned := pinned + {hash};
    }

    method Unpin(hash: BlockHash)
      modifies this
      ensures pinned == old(pinned) - {hash}
    {
      pinned := pinned - {hash};
    }

    method Get(key: Key, data: map<Key, DBValue>) returns (r: Option<DBValue>)
      ensures r.Some? <==> key in data || Overlaid(unfinalized.levels, key)
      ensures Overlaid(unfinalized.levels, key) ==> exists i: nat, j: nat ::
                UnfinalizedOverlay.FirstHolder(unfinalized.levels, key, i, j) && r.value == unfinalized.levels[i][j].values[key]
      ensures !Overlaid(unfinalized.levels, key) && key in data ==> r.value == data[key]
    {
      r := unfinalized.Get(key);
      if r.None? && key in data {
        r := Some(data[key]);
      }
    }
  }

  /** Some block of the window inserted the key. */
  ghost predicate Overlaid(levels: seq<Level>, key: Key) {
    exists i, j :: 0 <= i < |levels| && 0 <= j < |levels[i]| && key in levels[i][j].values
  }

  ghost predicate OverlaidAs(levels: seq<Level>, key: Key, value: DBValue) {
    exists i, j :: 0 <= i < |levels| && 0 <= j < |levels[i]| && key in levels[i][j].values && levels[i][j].values[key] == value
  }
}
