/** Whole runs of a constrained state database with its backing store. Each block has a
    state, its parent's with its insertions added and its deletions removed; the run
    theorems relate the keys in the store to these states. */
module StateRun {
  import opened Primitives
  import opened Commits
  import opened Forests
  import opened Unfinalized
  import opened Finality
  import FJ = ForestJournal
  import FR = ForestRecovery
  import opened Pruning
  import opened StateDb

  /** The in-memory state database and the store that received all its commits. */
  datatype System = System(forest: Forest, window: Window, pinned: set<BlockHash>, data: map<Key, DBValue>, meta: Meta)

  /** What happened: the state of every block seen, the finalized blocks that are retained
      (from the last pruned one to the last finalized one), and the changes of those in the
      pruning window. */
  datatype History = History(states: map<BlockHash, set<Key>>, kept: seq<BlockHash>, log: seq<DeathRecord>)

  // ---------- The invariant ----------

  ghost function After(state: set<Key>, r: DeathRecord): set<Key> {
    state + Elems(r.inserted) - Elems(r.deleted)
  }

  /** The retained blocks, each with its state and its changes; a block deletes only keys of
      its parent's state or keys it inserts itself. */
  ghost predicate Chained(h: History) {
    && |h.kept| == |h.log| + 1
    && (forall i :: 0 <= i < |h.kept| ==> h.kept[i] in h.states)
    && (forall i :: 0 <= i < |h.log| ==> LinkedAt(h, i))
  }

  ghost predicate LinkedAt(h: History, i: nat)
    requires i < |h.log| && i + 1 < |h.kept| && h.kept[i] in h.states && h.kept[i + 1] in h.states
  {
    && h.log[i].hash == h.kept[i + 1]
    && h.states[h.kept[i + 1]] == After(h.states[h.kept[i]], h.log[i])
    && Elems(h.log[i].deleted) <= h.states[h.kept[i]] + Elems(h.log[i].inserted)
  }

  /** A block of the forest extends its parent's state. */
  ghost predicate Grown(b: BlockOverlay, parents: Parents, states: map<BlockHash, set<Key>>, content: Key -> DBValue) {
    && b.hash in parents && b.hash in states && parents[b.hash] in states
    && states[b.hash] == states[parents[b.hash]] + b.values.Keys - Elems(b.deleted)
    && Elems(b.deleted) <= states[parents[b.hash]] + b.values.Keys
    && forall k :: k in b.values ==> b.values[k] == content(k)
  }

  ghost predicate AllGrown(f: Forest, states: map<BlockHash, set<Key>>, content: Key -> DBValue) {
    forall i, j :: 0 <= i < |f.levels| && 0 <= j < |f.levels[i]| ==> Grown(f.levels[i][j], f.parents, states, content)
  }

  /** The keys the store must hold: the oldest retained state and everything inserted since. */
  ghost function Retained(h: History): set<Key>
    requires h.kept != [] && h.kept[0] in h.states
  {
    h.states[h.kept[0]] + Inserts(h.log)
  }

  ghost predicate Started(s: System, h: History) {
    && s.forest.lastFinalized.Some?
    && Chained(h)
    && h.kept[|h.log|] == s.forest.lastFinalized.value.0
    && s.data.Keys == Retained(h)
  }

  /** Both windows are well formed and journaled. */
  ghost predicate ForestInv(f: Forest, meta: Meta) {
    Valid(f) && FJ.JournaledIn(f, meta)
  }

  ghost predicate WindowInv(w: Window, log: seq<DeathRecord>, meta: Meta) {
    Tracks(w, log) && Proper(log) && JournaledIn(w.pending, log, meta)
  }

  /** The store holds what the history says it must. */
  ghost predicate StoreInv(s: System, h: History, content: Key -> DBValue) {
    && (forall k :: k in s.data ==> s.data[k] == content(k))
    && if s.forest.lastFinalized.None? then h == History(map[], [], []) else Started(s, h)
  }

  ghost predicate Inv(s: System, h: History, content: Key -> DBValue) {
    && ForestInv(s.forest, s.meta)
    && WindowInv(s.window, h.log, s.meta)
    && AllGrown(s.forest, h.states, content)
    && StoreInv(s, h, content)
  }

  // ---------- Sets ----------

  lemma InsertsAppend(log: seq<DeathRecord>, r: DeathRecord)
    ensures Inserts(log + [r]) == Inserts(log) + Elems(r.inserted)
  {
    var log' := log + [r];
    assert forall i :: 0 <= i < |log| ==> log'[i] == log[i];
    assert log'[|log|] == r;
  }

  lemma InsertsSplit(log: seq<DeathRecord>)
    requires log != []
    ensures Inserts(log) == Elems(log[0].inserted) + Inserts(log[1..])
  {
    assert forall i :: 0 < i < |log| ==> log[i] == log[1..][i - 1];
  }

  /** A key of the last state is condemned by no retained block. */
  lemma {:induction false} AliveIsNotDoomed(h: History, n: nat, k: Key)
    requires Chained(h) && n <= |h.log| && k in h.states[h.kept[n]]
    ensures !Doomed(h.log[..n], k)
  {
    if n > 0 {
      var log, r := h.log[..n - 1], h.log[n - 1];
      assert LinkedAt(h, n - 1);
      assert h.log[..n] == log + [r];
      if k !in r.inserted {
        AliveIsNotDoomed(h, n - 1, k);
      }
      forall i | 0 <= i < n ensures k !in Dying(h.log[..n], i) {
        if i < n - 1 {
          DyingAppend(log, r, i);
        }
      }
    }
  }

  /** Removing the front block's dying keys from the store leaves what the rest retains. */
  lemma PruneRetains(h: History)
    requires Chained(h) && h.log != []
    ensures var h' := History(h.states, h.kept[1..], h.log[1..]);
            Chained(h') && Retained(h) - Dying(h.log, 0) == Retained(h')
  {
    var h' := History(h.states, h.kept[1..], h.log[1..]);
    forall i | 0 <= i < |h'.log| ensures LinkedAt(h', i) {
      assert LinkedAt(h, i + 1);
    }
    assert LinkedAt(h, 0);
    InsertsSplit(h.log);
  }

  ghost function Drop(h: History, n: nat): History
    requires n <= |h.log| && n <= |h.kept|
  {
    History(h.states, h.kept[n..], h.log[n..])
  }

  /** The same for `n` prunings in a row. */
  lemma {:induction false} PrunesRetain(h: History, w: Window, n: nat)
    requires Chained(h) && Tracks(w, h.log) && Proper(h.log) && n <= |h.log|
    ensures Chained(Drop(h, n)) && Tracks(PrunedBy(w, n), h.log[n..]) && Proper(h.log[n..])
    ensures Retained(h) - DyingFirst(w, n) == Retained(Drop(h, n))
  {
    if n == 0 {
      assert h.kept[0..] == h.kept && h.log[0..] == h.log && w.rows[0..] == w.rows;
      assert w.index - DyingFirst(w, 0) == w.index;
    } else {
      PrunesRetain(h, w, n - 1);
      var h0, w0 := Drop(h, n - 1), PrunedBy(w, n - 1);
      PruneRetains(h0);
      PruneTracks(w0, h0.log);
      ProperTail(h0.log);
      PrunedOneMore(w, n - 1);
      assert h0.kept[1..] == h.kept[n..] && h0.log[1..] == h.log[n..];
      assert w0.rows[0].deleted == Dying(h0.log, 0) == w.rows[n - 1].deleted;
    }
  }

  // ---------- Insertion ----------

  /** The states known once an insertion counts its parent as finalized. */
  ghost function Known(s: System, h: History, parent: BlockHash): map<BlockHash, set<Key>> {
    if s.forest.lastFinalized.None? then map[parent := s.data.Keys] else h.states
  }

  /** What the run assumes of an inserted block: a new hash, the parent one level up,
      deletions of existing keys only, and values determined by their keys. */
  ghost predicate InsertAllowed(s: System, h: History, content: Key -> DBValue, r: BlockRecord, number: nat) {
    && CanInsert(s.forest, number, r.parent) && WellPlaced(s.forest, r, number)
    && var states := Known(s, h, r.parent);
       && r.hash !in states && r.parent in states
       && Elems(r.deleted) <= states[r.parent] + Collect(r.inserted).Keys
       && forall k :: k in Collect(r.inserted) ==> Collect(r.inserted)[k] == content(k)
  }

  ghost predicate InsertStep(s: System, r: BlockRecord, number: nat, s': System)
    requires CanInsert(s.forest, number, r.parent)
  {
    var commit := InsertCommit(s.forest, r, number);
    s' == s.(forest := Inserted(s.forest, r, number), data := Applied(s.data, commit.data), meta := Applied(s.meta, commit.meta))
  }

  ghost function InsertHistory(s: System, h: History, r: BlockRecord): History
    requires r.parent in Known(s, h, r.parent)
  {
    var states := Known(s, h, r.parent);
    History(states[r.hash := states[r.parent] + Collect(r.inserted).Keys - Elems(r.deleted)],
            if s.forest.lastFinalized.None? then [r.parent] else h.kept, h.log)
  }

  lemma InsertMeta(f: Forest, meta: Meta, r: BlockRecord, number: nat)
    requires number >= 1
    ensures Applied(meta, InsertCommit(f, r, number).meta) == FJ.MetaInserted(f, meta, r, number)
  {
    var key := BlockJournal(number, NextIndex(f, number));
    if f.lastFinalized.None? {
      AppliedTwo(meta, (LastFinalized, FinalizedAt(r.parent, number - 1)), (key, Journaled(r)));
    } else {
      AppliedOne(meta, key, Journaled(r));
      assert [] + [(key, Journaled(r))] == [(key, Journaled(r))];
    }
  }

  lemma InsertGrows(s: System, h: History, content: Key -> DBValue, r: BlockRecord, number: nat)
    requires AllGrown(s.forest, h.states, content) && InsertAllowed(s, h, content, r, number)
    requires s.forest.lastFinalized.None? ==> s.forest.levels == []
    ensures AllGrown(Inserted(s.forest, r, number), InsertHistory(s, h, r).states, content)
  {
    var f, f', h' := s.forest, Inserted(s.forest, r, number), InsertHistory(s, h, r);
    forall i: nat, j: nat | i < |f'.levels| && j < |f'.levels[i]|
      ensures Grown(f'.levels[i][j], f'.parents, h'.states, content)
    {
      FJ.InsertedAt(f, r, number, i, j);
      if i < |f.levels| && j < |f.levels[i]| {
        assert Grown(f.levels[i][j], f.parents, h.states, content);
      }
    }
  }

  lemma InsertKeepsForestInv(f: Forest, meta: Meta, r: BlockRecord, number: nat)
    requires ForestInv(f, meta) && CanInsert(f, number, r.parent) && WellPlaced(f, r, number)
    ensures ForestInv(Inserted(f, r, number), FJ.MetaInserted(f, meta, r, number))
  {
    InsertKeepsValid(f, r, number);
    FJ.InsertIsJournaled(f, meta, r, number);
  }

  lemma InsertIsMetaOnly(s: System, r: BlockRecord, number: nat, s': System)
    requires CanInsert(s.forest, number, r.parent) && InsertStep(s, r, number, s')
    ensures s' == s.(forest := Inserted(s.forest, r, number), meta := FJ.MetaInserted(s.forest, s.meta, r, number))
  {
    InsertMeta(s.forest, s.meta, r, number);
    assert Applied(s.data, EMPTY_COMMIT.data) == s.data;
  }

  lemma InsertKeepsInv(s: System, h: History, content: Key -> DBValue, r: BlockRecord, number: nat, s': System)
    requires Inv(s, h, content) && InsertAllowed(s, h, content, r, number) && InsertStep(s, r, number, s')
    ensures Inv(s', InsertHistory(s, h, r), content)
  {
    InsertIsMetaOnly(s, r, number, s');
    InsertKeepsForestInv(s.forest, s.meta, r, number);
    InsertGrows(s, h, content, r, number);
    InsertLeavesWindow(s.window, h.log, s.forest, s.meta, r, number);
    InsertKeepsChain(s, h, content, r, number, s');
  }

  lemma InsertKeepsChain(s: System, h: History, content: Key -> DBValue, r: BlockRecord, number: nat, s': System)
    requires InsertAllowed(s, h, content, r, number)
    requires s'.forest.lastFinalized == if s.forest.lastFinalized.None? then Some((r.parent, number - 1)) else s.forest.lastFinalized
    requires s'.data == s.data && StoreInv(s, h, content)
    ensures StoreInv(s', InsertHistory(s, h, r), content)
  {
    var h' := InsertHistory(s, h, r);
    forall i | 0 <= i < |h'.log| ensures LinkedAt(h', i) {
      assert LinkedAt(h, i);
    }
    assert Inserts([]) == {};
  }

  lemma InsertLeavesWindow(w: Window, log: seq<DeathRecord>, f: Forest, meta: Meta, r: BlockRecord, number: nat)
    requires WindowInv(w, log, meta) && number >= 1
    ensures WindowInv(w, log, FJ.MetaInserted(f, meta, r, number))
  {
  }

  // ---------- Finalization ----------

  ghost predicate FinalizeTo(s: System, maxBlocks: nat, hash: BlockHash,
                             winner: BlockOverlay, noted: Window, n: nat, commit: CommitSet, s': System)
  {
    && FinalizeStep(s.forest, s.window, maxBlocks, s.pinned, hash, winner, noted, n, commit)
    && s' == System(Finalized(s.forest, hash), PrunedBy(noted, n), s.pinned, Applied(s.data, commit.data), Applied(s.meta, commit.meta))
  }

  /** The record the pruning window journals for the finalized block. */
  ghost function RecordOf(winner: BlockOverlay, commit: CommitSet): DeathRecord {
    Noted(winner.hash, ChangeSet(commit.data.inserted, winner.deleted))
  }

  lemma NotedKeys(hash: BlockHash, c: ChangeSet<Key, DBValue>)
    ensures Elems(Noted(hash, c).inserted) == Collect(c.inserted).Keys
  {
    var keys := Noted(hash, c).inserted;
    CollectKeys(c.inserted);
    forall k | k in Collect(c.inserted).Keys ensures k in keys {
      var i :| 0 <= i < |c.inserted| && c.inserted[i].0 == k;
      assert keys[i] == k;
    }
  }

  /** The history with the finalized block noted, before pruning. */
  ghost function Extended(h: History, r: DeathRecord): History {
    History(h.states, h.kept + [r.hash], h.log + [r])
  }

  lemma ExtendedIsChained(s: System, h: History, content: Key -> DBValue, r: DeathRecord, winner: BlockOverlay)
    requires Started(s, h) && Grown(winner, s.forest.parents, h.states, content)
    requires s.forest.parents[winner.hash] == s.forest.lastFinalized.value.0
    requires r.hash == winner.hash && Elems(r.inserted) == winner.values.Keys && r.deleted == winner.deleted
    ensures Chained(Extended(h, r))
    ensures Retained(Extended(h, r)) == s.data.Keys + winner.values.Keys
    ensures forall k :: k in r.deleted && k !in r.inserted ==> !Doomed(h.log, k)
  {
    var h' := Extended(h, r);
    forall i | 0 <= i < |h'.log| ensures LinkedAt(h', i) {
      if i < |h.log| {
        assert LinkedAt(h, i);
      }
    }
    InsertsAppend(h.log, r);
    forall k | k in r.deleted && k !in r.inserted ensures !Doomed(h.log, k) {
      assert k in Elems(r.deleted) && k !in Elems(r.inserted);
      AliveIsNotDoomed(h, |h.log|, k);
      assert h.log[..|h.log|] == h.log;
    }
  }

  lemma NotedTracks(w: Window, log: seq<DeathRecord>, r: DeathRecord, noted: Window)
    requires Tracks(w, log) && Proper(log) && Imports(w, r, NextDeathKey(w), noted)
    requires forall k :: k in r.deleted && k !in r.inserted ==> !Doomed(log, k)
    ensures Tracks(noted, log + [r]) && Proper(log + [r])
  {
    forall k | k in r.deleted && k !in r.inserted ensures k !in w.index {
      IndexedIsDoomed(w, log, k);
    }
    ImportTracksIff(w, log, r, noted);
    ProperAppend(log, r);
  }

  // ----- the metadata of a finalization -----

  lemma {:induction false} MarksCollect(pending: nat, n: nat)
    ensures Collect(PruneMarks(pending, n)) == if n == 0 then map[] else map[LastPruned := PrunedAt(pending + (n - 1))]
  {
    if n > 0 {
      MarksCollect(pending, n - 1);
      CollectAppend(PruneMarks(pending, n - 1), LastPruned, PrunedAt(pending + (n - 1)));
    }
  }

  lemma MarksOnTop(a: (MetaKey, MetaValue), b: (MetaKey, MetaValue), pending: nat, n: nat)
    ensures Collect([a] + [b] + PruneMarks(pending, n))
         == map[a.0 := a.1] + map[b.0 := b.1] + if n == 0 then map[] else map[LastPruned := PrunedAt(pending + (n - 1))]
  {
    MarksCollect(pending, n);
    CollectConcat([a] + [b], PruneMarks(pending, n));
    CollectConcat([a], [b]);
    CollectOne(a.0, a.1);
    CollectOne(b.0, b.1);
  }

  /** The metadata changes of a finalization: the window's record is added under `next`, the
      block journal entries `dropped` and the first `n` death journal entries are removed. */
  ghost predicate MetaStep(c: ChangeSet<MetaKey, MetaValue>, finalized: MetaValue, next: nat, r: DeathRecord,
                           pending: nat, n: nat, dropped: set<MetaKey>)
  {
    && c.inserted == [(LastFinalized, finalized)] + [(DeathJournal(next), Condemned(r))] + PruneMarks(pending, n)
    && (forall k :: k in dropped ==> k.BlockJournal?)
    && forall k :: k in Elems(c.deleted) <==> k in dropped || (k.DeathJournal? && pending <= k.block < pending + n)
  }

  /** What the metadata holds at key `k` after a finalization. */
  lemma FinalizeMetaAt(meta: Meta, c: ChangeSet<MetaKey, MetaValue>, finalized: MetaValue, next: nat, r: DeathRecord,
                       pending: nat, n: nat, dropped: set<MetaKey>, k: MetaKey)
    requires MetaStep(c, finalized, next, r, pending, n, dropped)
    ensures var meta' := Applied(meta, c);
            match k
            case LastFinalized => k in meta' && meta'[k] == finalized
            case BlockJournal(_, _) => (k in meta' <==> k in meta && k !in dropped) && (k in meta' ==> meta'[k] == meta[k])
            case LastPruned =>
              if n == 0 then (k in meta' <==> k in meta) && (k in meta' ==> meta'[k] == meta[k])
              else k in meta' && meta'[k] == PrunedAt(pending + (n - 1))
            case DeathJournal(b) =>
              && (k in meta' <==> (k in meta || b == next) && !(pending <= b < pending + n))
              && (k in meta' ==> meta'[k] == if b == next then Condemned(r) else meta[k])
  {
    MarksOnTop((LastFinalized, finalized), (DeathJournal(next), Condemned(r)), pending, n);
  }

  lemma PrunedJournalKeys(w: Window, log: seq<DeathRecord>, n: nat, k: MetaKey)
    requires n <= |w.rows| && RowsOf(w.rows, w.pending, log)
    ensures k in PrunedJournals(w, n) <==> k.DeathJournal? && w.pending <= k.block < w.pending + n
  {
    if k.DeathJournal? && w.pending <= k.block < w.pending + n {
      assert w.rows[k.block - w.pending].journalKey == DeathJournal(w.pending + (k.block - w.pending));
    }
  }

  lemma FinalizeKeepsForestInv(f: Forest, meta: Meta, hash: BlockHash, meta': Meta)
    requires ForestInv(f, meta) && CanFinalize(f, hash)
    requires LastFinalized in meta' && meta'[LastFinalized] == FinalizedAt(hash, f.Front())
    requires forall k: MetaKey :: k.BlockJournal? ==>
               (k in meta' <==> k in meta && k !in DroppedKeys(f, hash)) && (k in meta' ==> meta'[k] == meta[k])
    ensures ForestInv(Finalized(f, hash), meta')
  {
    FinalizeKeepsValid(f, hash);
    FJ.FinalizeIsJournaled(f, meta, hash);
    if LastFinalized in DroppedKeys(f, hash) {
      FJ.DroppedAreJournalKeys(f, hash, LastFinalized);
    }
    FJ.OtherMetadataIsIrrelevant(Finalized(f, hash), FJ.MetaFinalized(f, meta, hash), meta');
  }

  lemma FinalizeKeepsDeathJournal(pending: nat, log: seq<DeathRecord>, r: DeathRecord, n: nat, meta: Meta, meta': Meta)
    requires JournaledIn(pending, log, meta) && n <= |log| + 1
    requires ReadPending(meta') == Ok(pending + n)
    requires forall b: nat :: var k := DeathJournal(b);
               && (k in meta' <==> (k in meta || b == pending + |log|) && !(pending <= b < pending + n))
               && (k in meta' ==> meta'[k] == if b == pending + |log| then Condemned(r) else meta[k])
    ensures JournaledIn(pending + n, (log + [r])[n..], meta')
  {
    var log' := (log + [r])[n..];
    forall i | 0 <= i < |log'| ensures DeathJournal(pending + n + i) in meta' && meta'[DeathJournal(pending + n + i)] == Condemned(log'[i]) {
      var b := pending + n + i;
      assert DeathJournal(b) in meta' <==> (DeathJournal(b) in meta || b == pending + |log|) && !(pending <= b < pending + n);
      if n + i < |log| {
        assert meta[DeathJournal(pending + (n + i))] == Condemned(log[n + i]);
      }
    }
  }

  lemma FinalizeGrows(f: Forest, hash: BlockHash, states: map<BlockHash, set<Key>>, content: Key -> DBValue)
    requires Valid(f) && CanFinalize(f, hash) && AllGrown(f, states, content)
    ensures AllGrown(Finalized(f, hash), states, content)
  {
    var f' := Finalized(f, hash);
    forall i, j | 0 <= i < |f'.levels| && 0 <= j < |f'.levels[i]|
      ensures Grown(f'.levels[i][j], f'.parents, states, content)
    {
      var b, below := f'.levels[i][j], f.levels[1..];
      SurvivorsAt(below, f.parents, Losers(f, hash), i);
      KeepElements(below[i], f.parents, DoomedAbove(below, f.parents, Losers(f, hash), i));
      assert b in f.levels[i + 1];
      FJ.SurvivorKeepsParent(f, hash, i, b);
    }
  }

  ghost function FinalizeHistory(h: History, r: DeathRecord, n: nat): History
    requires |h.kept| == |h.log| + 1 && n <= |h.log| + 1
  {
    Drop(Extended(h, r), n)
  }

  lemma FinalizeStepMeta(f: Forest, w: Window, log: seq<DeathRecord>, maxBlocks: nat, pinned: set<BlockHash>, hash: BlockHash,
                         winner: BlockOverlay, noted: Window, n: nat, commit: CommitSet)
    requires FinalizeStep(f, w, maxBlocks, pinned, hash, winner, noted, n, commit)
    requires FJ.Indexed(f.levels, f.Front()) && RowsOf(noted.rows, noted.pending, log)
    ensures MetaStep(commit.meta, FinalizedAt(hash, f.Front()), w.pending + |w.rows|, RecordOf(winner, commit), noted.pending, n, DroppedKeys(f, hash))
  {
    var dropped, pruned := DroppedKeys(f, hash), PrunedJournals(noted, n);
    forall k | k in dropped ensures k.BlockJournal? {
      FJ.DroppedAreJournalKeys(f, hash, k);
    }
    forall k ensures k in pruned <==> k.DeathJournal? && noted.pending <= k.block < noted.pending + n {
      PrunedJournalKeys(noted, log, n, k);
    }
  }

  lemma FinalizeKeepsForestJournal(f: Forest, meta: Meta, hash: BlockHash, c: ChangeSet<MetaKey, MetaValue>,
                                   next: nat, r: DeathRecord, pending: nat, n: nat)
    requires ForestInv(f, meta) && CanFinalize(f, hash)
    requires MetaStep(c, FinalizedAt(hash, f.Front()), next, r, pending, n, DroppedKeys(f, hash))
    ensures ForestInv(Finalized(f, hash), Applied(meta, c))
  {
    var meta', dropped, finalized := Applied(meta, c), DroppedKeys(f, hash), FinalizedAt(hash, f.Front());
    FinalizeMetaAt(meta, c, finalized, next, r, pending, n, dropped, LastFinalized);
    forall k: MetaKey | k.BlockJournal?
      ensures (k in meta' <==> k in meta && k !in dropped) && (k in meta' ==> meta'[k] == meta[k])
    {
      FinalizeMetaAt(meta, c, finalized, next, r, pending, n, dropped, k);
    }
    FinalizeKeepsForestInv(f, meta, hash, meta');
  }

  /** The part of a finalization's metadata changes that concerns the death journal. */
  ghost predicate DeathStep(c: ChangeSet<MetaKey, MetaValue>, finalized: MetaValue, next: nat, r: DeathRecord, pending: nat, n: nat) {
    && c.inserted == [(LastFinalized, finalized)] + [(DeathJournal(next), Condemned(r))] + PruneMarks(pending, n)
    && LastPruned !in c.deleted
    && forall b: nat :: DeathJournal(b) in c.deleted <==> pending <= b < pending + n
  }

  lemma FinalizeStepDeaths(f: Forest, w: Window, log: seq<DeathRecord>, maxBlocks: nat, pinned: set<BlockHash>, hash: BlockHash,
                           winner: BlockOverlay, noted: Window, n: nat, commit: CommitSet)
    requires FinalizeStep(f, w, maxBlocks, pinned, hash, winner, noted, n, commit)
    requires FJ.Indexed(f.levels, f.Front()) && RowsOf(noted.rows, noted.pending, log)
    ensures DeathStep(commit.meta, FinalizedAt(hash, f.Front()), w.pending + |w.rows|, RecordOf(winner, commit), noted.pending, n)
  {
    FinalizeStepMeta(f, w, log, maxBlocks, pinned, hash, winner, noted, n, commit);
    assert forall k :: k in Elems(commit.meta.deleted) <==> k in commit.meta.deleted;
  }

  lemma FinalizeKeepsWindowJournal(pending: nat, log: seq<DeathRecord>, meta: Meta, c: ChangeSet<MetaKey, MetaValue>,
                                   finalized: MetaValue, r: DeathRecord, n: nat)
    requires JournaledIn(pending, log, meta) && n <= |log| + 1
    requires DeathStep(c, finalized, pending + |log|, r, pending, n)
    ensures JournaledIn(pending + n, (log + [r])[n..], Applied(meta, c))
  {
    var meta', next := Applied(meta, c), pending + |log|;
    MarksOnTop((LastFinalized, finalized), (DeathJournal(next), Condemned(r)), pending, n);
    forall b: nat ensures var k := DeathJournal(b);
      && (k in meta' <==> (k in meta || b == next) && !(pending <= b < pending + n))
      && (k in meta' ==> meta'[k] == if b == next then Condemned(r) else meta[k])
    {
      assert DeathJournal(b) in Elems(c.deleted) <==> DeathJournal(b) in c.deleted;
    }
    FinalizeKeepsDeathJournal(pending, log, r, n, meta, meta');
  }

  lemma WinnerExtends(s: System, h: History, content: Key -> DBValue, maxBlocks: nat, hash: BlockHash,
                      winner: BlockOverlay, noted: Window, n: nat, commit: CommitSet)
    requires Inv(s, h, content)
    requires FinalizeStep(s.forest, s.window, maxBlocks, s.pinned, hash, winner, noted, n, commit)
    ensures var r := RecordOf(winner, commit);
            && Chained(Extended(h, r)) && Retained(Extended(h, r)) == s.data.Keys + winner.values.Keys
            && Tracks(noted, h.log + [r]) && Proper(h.log + [r])
            && Grown(winner, s.forest.parents, h.states, content)
  {
    var r := RecordOf(winner, commit);
    NotedKeys(hash, ChangeSet(commit.data.inserted, winner.deleted));
    RootsHangFromTop(s.forest, hash);
    var j :| 0 <= j < |s.forest.levels[0]| && s.forest.levels[0][j] == winner;
    assert Grown(s.forest.levels[0][j], s.forest.parents, h.states, content);
    ExtendedIsChained(s, h, content, r, winner);
    NotedTracks(s.window, h.log, r, noted);
  }

  lemma FinalizeForestPart(f: Forest, w: Window, meta: Meta, log: seq<DeathRecord>, maxBlocks: nat, pinned: set<BlockHash>, hash: BlockHash,
                           winner: BlockOverlay, noted: Window, n: nat, commit: CommitSet)
    requires ForestInv(f, meta)
    requires FinalizeStep(f, w, maxBlocks, pinned, hash, winner, noted, n, commit)
    requires RowsOf(noted.rows, noted.pending, log)
    ensures ForestInv(Finalized(f, hash), Applied(meta, commit.meta))
  {
    FinalizeStepMeta(f, w, log, maxBlocks, pinned, hash, winner, noted, n, commit);
    FinalizeKeepsForestJournal(f, meta, hash, commit.meta, w.pending + |w.rows|, RecordOf(winner, commit), noted.pending, n);
  }

  lemma FinalizeWindowPart(f: Forest, w: Window, meta: Meta, log: seq<DeathRecord>, maxBlocks: nat, pinned: set<BlockHash>, hash: BlockHash,
                           winner: BlockOverlay, noted: Window, n: nat, commit: CommitSet)
    requires FJ.Indexed(f.levels, f.Front()) && |w.rows| == |log| && JournaledIn(w.pending, log, meta)
    requires FinalizeStep(f, w, maxBlocks, pinned, hash, winner, noted, n, commit)
    requires RowsOf(noted.rows, noted.pending, log + [RecordOf(winner, commit)])
    requires var log' := (log + [RecordOf(winner, commit)])[n..]; Tracks(PrunedBy(noted, n), log') && Proper(log')
    ensures WindowInv(PrunedBy(noted, n), (log + [RecordOf(winner, commit)])[n..], Applied(meta, commit.meta))
  {
    var r := RecordOf(winner, commit);
    FinalizeStepDeaths(f, w, log + [r], maxBlocks, pinned, hash, winner, noted, n, commit);
    FinalizeKeepsWindowJournal(w.pending, log, meta, commit.meta, FinalizedAt(hash, f.Front()), r, n);
  }

  lemma FinalizeKeepsInv(s: System, h: History, content: Key -> DBValue, maxBlocks: nat, hash: BlockHash,
                         winner: BlockOverlay, noted: Window, n: nat, commit: CommitSet, s': System)
    requires Inv(s, h, content) && FinalizeTo(s, maxBlocks, hash, winner, noted, n, commit, s')
    ensures |h.kept| == |h.log| + 1 && n <= |h.log| + 1
    ensures Inv(s', FinalizeHistory(h, RecordOf(winner, commit), n), content)
  {
    var r := RecordOf(winner, commit);
    WinnerExtends(s, h, content, maxBlocks, hash, winner, noted, n, commit);
    var h' := FinalizeHistory(h, r, n);
    PrunesRetain(Extended(h, r), noted, n);
    assert AllGrown(s'.forest, h'.states, content) by {
      FinalizeGrows(s.forest, hash, h.states, content);
    }
    assert StoreInv(s', h', content) by {
      FinalizeKeepsStore(s, h, content, maxBlocks, hash, winner, noted, n, commit, s');
    }
    assert ForestInv(s'.forest, s'.meta) by {
      FinalizeForestPart(s.forest, s.window, s.meta, h.log + [r], maxBlocks, s.pinned, hash, winner, noted, n, commit);
    }
    assert WindowInv(PrunedBy(noted, n), h'.log, s'.meta) by {
      assert h'.log == (h.log + [r])[n..];
      FinalizeWindowPart(s.forest, s.window, s.meta, h.log, maxBlocks, s.pinned, hash, winner, noted, n, commit);
    }
  }

  lemma FinalizeKeepsStore(s: System, h: History, content: Key -> DBValue, maxBlocks: nat, hash: BlockHash,
                           winner: BlockOverlay, noted: Window, n: nat, commit: CommitSet, s': System)
    requires StoreInv(s, h, content) && FinalizeTo(s, maxBlocks, hash, winner, noted, n, commit, s')
    requires Grown(winner, s.forest.parents, h.states, content)
    requires var r := RecordOf(winner, commit);
             && Retained(Extended(h, r)) == s.data.Keys + winner.values.Keys
             && n <= |h.log| + 1 && Chained(FinalizeHistory(h, r, n))
             && Retained(Extended(h, r)) - DyingFirst(noted, n) == Retained(FinalizeHistory(h, r, n))
    ensures StoreInv(s', FinalizeHistory(h, RecordOf(winner, commit), n), content)
  {
    var h' := FinalizeHistory(h, RecordOf(winner, commit), n);
    assert h'.kept[|h'.log|] == Extended(h, RecordOf(winner, commit)).kept[|h.log| + 1] == hash;
    forall k | k in s'.data ensures s'.data[k] == content(k) {
      if k in winner.values {
        assert winner.values[k] == content(k);
      }
    }
  }

  /** After a finalization the window is within its bound, unless its front block is pinned. */
  lemma FinalizeBoundsWindow(s: System, maxBlocks: nat, hash: BlockHash,
                             winner: BlockOverlay, noted: Window, n: nat, commit: CommitSet, s': System)
    requires FinalizeTo(s, maxBlocks, hash, winner, noted, n, commit, s')
    ensures |s'.window.rows| <= maxBlocks || s'.window.rows[0].hash in s.pinned
  {
    assert s'.window.rows == noted.rows[n..];
  }

  // ---------- Restart ----------

  /** The window a replay of the death journal must give. */
  ghost predicate Replayed(meta: Meta, w: Window) {
    forall pending: nat, log :: JournaledIn(pending, log, meta) && Proper(log) ==> w.pending == pending && Tracks(w, log)
  }

  /** Both windows are rebuilt from the metadata; pins are forgotten. */
  ghost predicate RestartStep(s: System, s': System) {
    && FR.Recovered(s.meta) == Ok(s'.forest)
    && Replayed(s.meta, s'.window)
    && s' == System(s'.forest, s'.window, {}, s.data, s.meta)
  }

  lemma {:induction false} TrimmedIsRooted(levels: seq<Level>, parents: Parents, roots: set<BlockHash>)
    requires Rooted(levels, parents, roots) && Distinct(levels)
    ensures Rooted(FR.Trimmed(levels), parents, roots) && Distinct(FR.Trimmed(levels))
    ensures AllHashes(FR.Trimmed(levels)) == AllHashes(levels)
  {
    if levels != [] {
      if levels[0] == [] {
        FR.NothingBelowEmpty(levels, parents, roots, 0);
      } else {
        TrimmedIsRooted(levels[1..], parents, Hashes(levels[0]));
        assert FR.Trimmed(levels)[1..] == FR.Trimmed(levels[1..]);
      }
    }
  }

  lemma {:induction false} TrimmedIsPrefix(levels: seq<Level>)
    ensures FR.Trimmed(levels) <= levels
  {
    if levels != [] && levels[0] != [] {
      TrimmedIsPrefix(levels[1..]);
    }
  }

  lemma TrimKeepsForestInv(f: Forest, meta: Meta)
    requires ForestInv(f, meta) && f.lastFinalized.Some?
    ensures ForestInv(FR.Trim(f), meta)
  {
    var g, root := FR.Trim(f), f.lastFinalized.value.0;
    TrimmedIsRooted(f.levels, f.parents, {root});
    TrimmedIsPrefix(f.levels);
    assert forall i :: 0 <= i < |g.levels| ==> g.levels[i] == f.levels[i];
    forall k | k in meta && k.BlockJournal? ensures FJ.OwnedBy(g.levels, k) {
      assert FJ.OwnedBy(f.levels, k);
      var i: nat, j: nat :| i < |f.levels| && j < |f.levels[i]| && f.levels[i][j].journalKey == k;
      FR.TrimDense(f.levels, i, j, f.parents, {root});
      assert g.levels[i][j].journalKey == k;
    }
    assert FJ.Indexed(g.levels, g.Front());
    assert FJ.Recorded(g, meta) by {
      forall i, j | 0 <= i < |g.levels| && 0 <= j < |g.levels[i]| ensures FJ.RecordedAt(g.levels[i][j], j, g.parents, meta) {
        assert FJ.RecordedAt(f.levels[i][j], j, f.parents, meta);
      }
    }
  }

  /** When the journal indices are dense, a restart rebuilds both windows as they were (the
      forest without trailing empty levels), so the run goes on as if it had not happened. */
  lemma RestartKeepsInv(s: System, h: History, content: Key -> DBValue, s': System)
    requires Inv(s, h, content) && FJ.Dense(s.forest) && RestartStep(s, s')
    ensures s'.window == s.window && s'.forest == FR.Trim(s.forest)
    ensures Inv(s', h, content)
  {
    FR.RecoveryIsExactIffDense(s.forest, s.meta);
    TracksIsUnique(s.window, s'.window, h.log);
    if s.forest.lastFinalized.Some? {
      TrimKeepsForestInv(s.forest, s.meta);
      TrimmedIsPrefix(s.forest.levels);
      forall i, j | 0 <= i < |s'.forest.levels| && 0 <= j < |s'.forest.levels[i]|
        ensures Grown(s'.forest.levels[i][j], s'.forest.parents, h.states, content)
      {
        assert Grown(s.forest.levels[i][j], s.forest.parents, h.states, content);
      }
    }
  }
}
