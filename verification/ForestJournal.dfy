/** The journal of the finalization window: what the metadata holds of the forest after
    every run, and exactly when a restart rebuilds the forest from it. */
module ForestJournal {
  import opened Commits
  import opened Forests
  import opened Unfinalized
  import opened Finality

  datatype Error = Decoding

  // ---------- What the metadata holds ----------

  ghost predicate IsRecordOf(v: MetaValue, b: BlockOverlay, parents: Parents) {
    && v.Journaled? && b.hash in parents
    && v.block.hash == b.hash && v.block.parent == parents[b.hash]
    && Collect(v.block.inserted) == b.values && v.block.deleted == b.deleted
  }

  /** Blocks keep the journal index they were given, so a block's index is never below its
      position; the two are equal while no block before it has been discarded. */
  ghost predicate Indexed(levels: seq<Level>, front: nat) {
    forall i, j :: 0 <= i < |levels| && 0 <= j < |levels[i]| ==> IndexedAt(levels[i][j].journalKey, front + i, j)
  }

  ghost predicate IndexedAt(key: MetaKey, block: nat, position: nat) {
    key.BlockJournal? && key.block == block && key.index >= position
  }

  /** The record of every block that has not moved within its level is intact. */
  ghost predicate Recorded(f: Forest, meta: Meta) {
    forall i, j :: 0 <= i < |f.levels| && 0 <= j < |f.levels[i]| ==> RecordedAt(f.levels[i][j], j, f.parents, meta)
  }

  ghost predicate RecordedAt(b: BlockOverlay, position: nat, parents: Parents, meta: Meta) {
    b.journalKey.BlockJournal? && b.journalKey.index == position ==>
      b.journalKey in meta && IsRecordOf(meta[b.journalKey], b, parents)
  }

  /** Every journal entry belongs to some block of the forest. */
  ghost predicate NoStray(levels: seq<Level>, meta: Meta) {
    forall k :: k in meta && k.BlockJournal? ==> OwnedBy(levels, k)
  }

  ghost predicate OwnedBy(levels: seq<Level>, k: MetaKey) {
    exists i, j :: 0 <= i < |levels| && 0 <= j < |levels[i]| && levels[i][j].journalKey == k
  }

  ghost predicate JournaledIn(f: Forest, meta: Meta) {
    && (f.lastFinalized.None? ==> LastFinalized !in meta)
    && (f.lastFinalized.Some? ==> LastFinalized in meta && meta[LastFinalized] == FinalizedAt(f.lastFinalized.value.0, f.lastFinalized.value.1))
    && Indexed(f.levels, f.Front())
    && Recorded(f, meta)
    && NoStray(f.levels, meta)
  }

  /** The journal indices on every level are 0, 1, 2, ... in order. */
  ghost predicate Dense(f: Forest) {
    forall i, j :: 0 <= i < |f.levels| && 0 <= j < |f.levels[i]| ==> f.levels[i][j].journalKey == BlockJournal(f.Front() + i, j)
  }

  /** Only the last-finalized entry and the block journal matter to the forest. */
  lemma OtherMetadataIsIrrelevant(f: Forest, meta: Meta, meta': Meta)
    requires JournaledIn(f, meta)
    requires forall k: MetaKey :: k.BlockJournal? || k.LastFinalized? ==>
               (k in meta <==> k in meta') && (k in meta ==> meta[k] == meta'[k])
    ensures JournaledIn(f, meta')
  {
    forall i, j | 0 <= i < |f.levels| && 0 <= j < |f.levels[i]|
      ensures RecordedAt(f.levels[i][j], j, f.parents, meta')
    {
      assert RecordedAt(f.levels[i][j], j, f.parents, meta);
    }
  }

  // ---------- Insertion ----------

  function MetaInserted(f: Forest, meta: Meta, record: BlockRecord, number: nat): Meta
    requires number >= 1
  {
    var meta := if f.lastFinalized.None? then meta[LastFinalized := FinalizedAt(record.parent, number - 1)] else meta;
    meta[BlockJournal(number, NextIndex(f, number)) := Journaled(record)]
  }

  /** Insertion adds one block, at the position its journal index names, and moves none. */
  lemma InsertedAt(f: Forest, record: BlockRecord, number: nat, i: nat, j: nat)
    requires CanInsert(f, number, record.parent)
    ensures var f' := Inserted(f, record, number);
            var n, m := number - f'.Front(), NextIndex(f, number);
            && (f.lastFinalized.Some? ==> f'.Front() == f.Front())
            && ((i < |f'.levels| && j < |f'.levels[i]|) <==> (i < |f.levels| && j < |f.levels[i]|) || (i == n && j == m))
            && (i == n && j == m ==> f'.levels[i][j] == OverlayOf(record, BlockJournal(number, m)))
            && (i < |f.levels| && j < |f.levels[i]| ==> !(i == n && j == m) && f'.levels[i][j] == f.levels[i][j])
  {
  }

  lemma InsertIsJournaled(f: Forest, meta: Meta, record: BlockRecord, number: nat)
    requires f.parents.Keys == AllHashes(f.levels) && JournaledIn(f, meta)
    requires CanInsert(f, number, record.parent) && WellPlaced(f, record, number)
    ensures JournaledIn(Inserted(f, record, number), MetaInserted(f, meta, record, number))
  {
    var f', meta' := Inserted(f, record, number), MetaInserted(f, meta, record, number);
    InsertedAt(f, record, number, 0, 0);
    forall i: nat, j: nat | i < |f'.levels| && j < |f'.levels[i]|
      ensures IndexedAt(f'.levels[i][j].journalKey, f'.Front() + i, j)
      ensures RecordedAt(f'.levels[i][j], j, f'.parents, meta')
    {
      InsertedBlockIsJournaled(f, meta, record, number, i, j);
    }
    forall k | k in meta' && k.BlockJournal? ensures OwnedBy(f'.levels, k) {
      if k == BlockJournal(number, NextIndex(f, number)) {
        InsertedAt(f, record, number, number - f'.Front(), k.index);
      } else {
        assert OwnedBy(f.levels, k);
        var i: nat, j: nat :| i < |f.levels| && j < |f.levels[i]| && f.levels[i][j].journalKey == k;
        InsertedAt(f, record, number, i, j);
      }
    }
  }

  lemma InsertedBlockIsJournaled(f: Forest, meta: Meta, record: BlockRecord, number: nat, i: nat, j: nat)
    requires f.parents.Keys == AllHashes(f.levels) && JournaledIn(f, meta)
    requires CanInsert(f, number, record.parent) && WellPlaced(f, record, number)
    requires var f' := Inserted(f, record, number); i < |f'.levels| && j < |f'.levels[i]|
    ensures var f' := Inserted(f, record, number);
            && IndexedAt(f'.levels[i][j].journalKey, f'.Front() + i, j)
            && RecordedAt(f'.levels[i][j], j, f'.parents, MetaInserted(f, meta, record, number))
  {
    InsertedAt(f, record, number, i, j);
    if i < |f.levels| && j < |f.levels[i]| {
      var b := f.levels[i][j];
      assert IndexedAt(b.journalKey, f.Front() + i, j) && RecordedAt(b, j, f.parents, meta);
      HashIsThere(f.levels, i, b);
    }
  }

  lemma {:induction false} HashIsThere(levels: seq<Level>, i: nat, b: BlockOverlay)
    requires i < |levels| && b in levels[i]
    ensures b.hash in AllHashes(levels)
  {
    if i > 0 {
      HashIsThere(levels[1..], i - 1, b);
    }
  }

  lemma InsertKeepsDense(f: Forest, record: BlockRecord, number: nat)
    requires Dense(f) && CanInsert(f, number, record.parent)
    ensures Dense(Inserted(f, record, number))
  {
    var f' := Inserted(f, record, number);
    var n := number - f'.Front();
    assert forall i, j :: 0 <= i < |f.levels| && 0 <= j < |f.levels[i]| ==> f'.levels[i][j] == f.levels[i][j];
  }

  // ---------- Finalization ----------

  /** Where the `j`th kept block stood: not before `j`, and at `j` only if nothing before it fell. */
  lemma {:induction false} KeepPosition(level: Level, parents: Parents, doomed: set<BlockHash>, j: nat) returns (from: nat)
    requires j < |Keep(level, parents, doomed)|
    ensures j <= from < |level| && level[from] == Keep(level, parents, doomed)[j]
    ensures !ChildOf(parents, level[from].hash, doomed)
    ensures from == j ==> forall m :: 0 <= m < j ==> !ChildOf(parents, level[m].hash, doomed)
  {
    var last := |level| - 1;
    KeepIsShorter(level[..last], parents, doomed);
    var before := Keep(level[..last], parents, doomed);
    if j < |before| {
      from := KeepPosition(level[..last], parents, doomed, j);
    } else {
      from := last;
      if |before| == last {
        KeptEntirely(level[..last], parents, doomed);
      }
    }
  }

  lemma {:induction false} KeepIsShorter(level: Level, parents: Parents, doomed: set<BlockHash>)
    ensures |Keep(level, parents, doomed)| <= |level|
  {
    if level != [] {
      KeepIsShorter(level[..|level| - 1], parents, doomed);
    }
  }

  lemma {:induction false} KeptEntirely(level: Level, parents: Parents, doomed: set<BlockHash>)
    requires |Keep(level, parents, doomed)| == |level|
    ensures Keep(level, parents, doomed) == level
    ensures forall m :: 0 <= m < |level| ==> !ChildOf(parents, level[m].hash, doomed)
  {
    if level != [] {
      var last := |level| - 1;
      KeepIsShorter(level[..last], parents, doomed);
      KeptEntirely(level[..last], parents, doomed);
      assert forall m :: 0 <= m < last ==> level[..last][m] == level[m];
    }
  }

  ghost function MetaFinalized(f: Forest, meta: Meta, hash: BlockHash): Meta
    requires CanFinalize(f, hash)
  {
    meta[LastFinalized := FinalizedAt(hash, f.Front())] - DroppedKeys(f, hash)
  }

  lemma DroppedAreJournalKeys(f: Forest, hash: BlockHash, k: MetaKey)
    requires CanFinalize(f, hash) && Indexed(f.levels, f.Front())
    requires k in DroppedKeys(f, hash)
    ensures k.BlockJournal?
  {
    var losers, below := Losers(f, hash), f.levels[1..];
    if k in KeysOf(f.levels[0]) {
      var j :| 0 <= j < |f.levels[0]| && f.levels[0][j].journalKey == k;
      assert IndexedAt(f.levels[0][j].journalKey, f.Front() + 0, j);
    } else {
      RemovedKeysAreOfFallen(below, f.parents, losers, k);
      var i, b :| 0 <= i < |below| && Falls(below, f.parents, losers, i, b) && b.journalKey == k;
      var j :| 0 <= j < |below[i]| && below[i][j] == b;
      assert IndexedAt(f.levels[i + 1][j].journalKey, f.Front() + (i + 1), j);
    }
  }

  lemma FinalizeIsJournaled(f: Forest, meta: Meta, hash: BlockHash)
    requires Valid(f) && JournaledIn(f, meta) && CanFinalize(f, hash)
    ensures JournaledIn(Finalized(f, hash), MetaFinalized(f, meta, hash))
  {
    var f', meta' := Finalized(f, hash), MetaFinalized(f, meta, hash);
    var losers, below := Losers(f, hash), f.levels[1..];
    if LastFinalized in DroppedKeys(f, hash) {
      DroppedAreJournalKeys(f, hash, LastFinalized);
    }
    forall i, j | 0 <= i < |f'.levels| && 0 <= j < |f'.levels[i]|
      ensures IndexedAt(f'.levels[i][j].journalKey, f'.Front() + i, j)
      ensures RecordedAt(f'.levels[i][j], j, f'.parents, meta')
    {
      SurvivorKeepsParent(f, hash, i, f'.levels[i][j]);
      SurvivorIsRecorded(f, meta, hash, i, j);
    }
    forall k | k in meta' && k.BlockJournal? ensures OwnedBy(f'.levels, k) {
      EntryHasSurvivor(f, hash, k);
    }
  }

  lemma SurvivorKeepsParent(f: Forest, hash: BlockHash, i: nat, b: BlockOverlay)
    requires Valid(f) && CanFinalize(f, hash)
    requires i < |f.levels| - 1 && b in Finalized(f, hash).levels[i]
    ensures b.hash in Finalized(f, hash).parents && Finalized(f, hash).parents[b.hash] == f.parents[b.hash]
  {
    FinalizeKeepsValid(f, hash);
    HashIsThere(Finalized(f, hash).levels, i, b);
  }

  lemma SurvivorIsRecorded(f: Forest, meta: Meta, hash: BlockHash, i: nat, j: nat)
    requires JournaledIn(f, meta) && CanFinalize(f, hash)
    requires i < |f.levels| - 1 && j < |Finalized(f, hash).levels[i]|
    requires var b, f' := Finalized(f, hash).levels[i][j], Finalized(f, hash);
             b.hash in f'.parents && f'.parents[b.hash] == f.parents[b.hash]
    ensures var f' := Finalized(f, hash);
            && IndexedAt(f'.levels[i][j].journalKey, f'.Front() + i, j)
            && RecordedAt(f'.levels[i][j], j, f'.parents, MetaFinalized(f, meta, hash))
  {
    var f', losers, below := Finalized(f, hash), Losers(f, hash), f.levels[1..];
    SurvivorsAt(below, f.parents, losers, i);
    var from := KeepPosition(below[i], f.parents, DoomedAbove(below, f.parents, losers, i), j);
    var b := below[i][from];
    assert b == f.levels[i + 1][from] == f'.levels[i][j];
    assert IndexedAt(b.journalKey, f.Front() + (i + 1), from);
    if b.journalKey.index == j {
      assert RecordedAt(b, from, f.parents, meta);
      UnmovedIsNotDropped(f, hash, i, j);
    }
  }

  /** An entry is dropped only with a block of the same level and index; were that not this
      block, it would have stood before it. */
  lemma UnmovedIsNotDropped(f: Forest, hash: BlockHash, i: nat, j: nat)
    requires CanFinalize(f, hash) && Indexed(f.levels, f.Front())
    requires i < |f.levels| - 1 && j < |f.levels[i + 1]|
    requires f.levels[i + 1][j].journalKey == BlockJournal(f.Front() + (i + 1), j)
    requires var doomed := DoomedAbove(f.levels[1..], f.parents, Losers(f, hash), i);
             forall m :: 0 <= m <= j ==> !ChildOf(f.parents, f.levels[1..][i][m].hash, doomed)
    ensures BlockJournal(f.Front() + (i + 1), j) !in DroppedKeys(f, hash)
  {
    var k, losers, below := BlockJournal(f.Front() + (i + 1), j), Losers(f, hash), f.levels[1..];
    assert k !in KeysOf(f.levels[0]) by {
      assert forall m :: 0 <= m < |f.levels[0]| ==> IndexedAt(f.levels[0][m].journalKey, f.Front() + 0, m);
    }
    RemovedKeysAreOfFallen(below, f.parents, losers, k);
    forall i', b | 0 <= i' < |below| && Falls(below, f.parents, losers, i', b) ensures b.journalKey != k {
      var m :| 0 <= m < |below[i']| && below[i'][m] == b;
      assert IndexedAt(f.levels[i' + 1][m].journalKey, f.Front() + (i' + 1), m);
    }
  }

  lemma EntryHasSurvivor(f: Forest, hash: BlockHash, k: MetaKey)
    requires CanFinalize(f, hash) && OwnedBy(f.levels, k) && k !in DroppedKeys(f, hash)
    ensures OwnedBy(Finalized(f, hash).levels, k)
  {
    var losers, below := Losers(f, hash), f.levels[1..];
    var i: nat, j: nat :| i < |f.levels| && j < |f.levels[i]| && f.levels[i][j].journalKey == k;
    var b := f.levels[i][j];
    assert forall x :: x in f.levels[0] ==> x.journalKey in KeysOf(f.levels[0]);
    RemovedKeysAreOfFallen(below, f.parents, losers, k);
    assert b in below[i - 1] && !Falls(below, f.parents, losers, i - 1, b);
    KeepElements(below[i - 1], f.parents, DoomedAbove(below, f.parents, losers, i - 1));
    SurvivorsAt(below, f.parents, losers, i - 1);
    assert b in Survivors(below, f.parents, losers)[i - 1];
  }

  /** On every level below the first, whoever stands before a descendant of the block is one too:
      the blocks that go stand after those that stay. */
  ghost predicate LosersLast(f: Forest, hash: BlockHash) {
    forall i :: 0 < i < |f.levels| ==> DescendantsFirst(f.levels[i], f.parents, hash)
  }

  ghost predicate DescendantsFirst(level: Level, parents: Parents, hash: BlockHash) {
    forall j, k :: 0 <= j < k < |level| && Descends(parents, level[k].hash, hash) ==> Descends(parents, level[j].hash, hash)
  }

  lemma {:induction false} DescendantsAreWithin(level: Level, parents: Parents, hash: BlockHash)
    ensures var kept := Descendants(level, parents, hash);
            && |kept| <= |level|
            && (|kept| == |level| <==> forall b :: b in level ==> Descends(parents, b.hash, hash))
            && (|kept| == |level| ==> kept == level)
  {
    if level != [] {
      var last := |level| - 1;
      DescendantsAreWithin(level[..last], parents, hash);
      assert level == level[..last] + [level[last]];
    }
  }

  /** The descendants on a level are a prefix of it exactly when they come first. */
  lemma {:induction false} DescendantsArePrefixIff(level: Level, parents: Parents, hash: BlockHash)
    requires NoRepeat(level)
    ensures Descendants(level, parents, hash) <= level <==> DescendantsFirst(level, parents, hash)
  {
    if level != [] {
      var last := |level| - 1;
      DescendantsAreWithin(level[..last], parents, hash);
      if Descends(parents, level[last].hash, hash) {
        LastComesAfterAll(level, parents, hash);
        PrefixWithLast(level, Descendants(level[..last], parents, hash));
      } else {
        DescendantsArePrefixIff(level[..last], parents, hash);
        LastDoesNotMatter(level, parents, hash);
        PrefixWithoutLast(level, Descendants(level[..last], parents, hash));
      }
    }
  }

  lemma LastComesAfterAll(level: Level, parents: Parents, hash: BlockHash)
    requires level != [] && Descends(parents, level[|level| - 1].hash, hash)
    ensures DescendantsFirst(level, parents, hash) <==> forall b :: b in level[..|level| - 1] ==> Descends(parents, b.hash, hash)
  {
    var init := level[..|level| - 1];
    if DescendantsFirst(level, parents, hash) {
      forall b | b in init ensures Descends(parents, b.hash, hash) {
        var j :| 0 <= j < |init| && init[j] == b;
        assert level[j] == b;
      }
    }
    if forall b :: b in init ==> Descends(parents, b.hash, hash) {
      forall j | 0 <= j < |level| - 1 ensures Descends(parents, level[j].hash, hash) {
        assert init[j] in init;
      }
    }
  }

  lemma LastDoesNotMatter(level: Level, parents: Parents, hash: BlockHash)
    requires level != [] && !Descends(parents, level[|level| - 1].hash, hash)
    ensures DescendantsFirst(level, parents, hash) <==> DescendantsFirst(level[..|level| - 1], parents, hash)
  {
    var init := level[..|level| - 1];
    if DescendantsFirst(level, parents, hash) {
      forall j, k | 0 <= j < k < |init| && Descends(parents, init[k].hash, hash) ensures Descends(parents, init[j].hash, hash) {
        assert level[j] == init[j] && level[k] == init[k];
      }
    }
    if DescendantsFirst(init, parents, hash) {
      forall j, k | 0 <= j < k < |level| && Descends(parents, level[k].hash, hash) ensures Descends(parents, level[j].hash, hash) {
        assert level[j] == init[j] && level[k] == init[k];
      }
    }
  }

  lemma PrefixWithLast(level: Level, kept: Level)
    requires level != [] && NoRepeat(level) && |kept| < |level|
    ensures kept + [level[|level| - 1]] <= level <==> kept == level[..|level| - 1]
  {
    var last := |level| - 1;
    if kept + [level[last]] <= level {
      assert level[|kept|] == (kept + [level[last]])[|kept|] == level[last];
    }
    assert level == level[..last] + [level[last]];
  }

  lemma PrefixWithoutLast(level: Level, kept: Level)
    requires level != [] && |kept| < |level|
    ensures kept <= level <==> kept <= level[..|level| - 1]
  {
  }

  /** Finalization leaves the indices dense exactly when, on every level, the blocks it
      discards stand after those it keeps. */
  lemma FinalizeKeepsDenseIff(f: Forest, hash: BlockHash)
    requires Valid(f) && Dense(f) && CanFinalize(f, hash)
    ensures Dense(Finalized(f, hash)) <==> LosersLast(f, hash)
  {
    if Dense(Finalized(f, hash)) {
      forall i | 0 < i < |f.levels| ensures DescendantsFirst(f.levels[i], f.parents, hash) {
        LevelUnmoved(f, hash, i - 1);
        LevelIsPrefixIff(f, hash, i - 1);
      }
    }
    if LosersLast(f, hash) {
      FinalizeDropsLevel(f, hash);
      forall i | 0 <= i < |Finalized(f, hash).levels| ensures Finalized(f, hash).levels[i] <= f.levels[i + 1] {
        LevelIsPrefixIff(f, hash, i);
      }
      PrefixesAreDense(f, Finalized(f, hash));
    }
  }

  lemma FinalizeDropsLevel(f: Forest, hash: BlockHash)
    requires Valid(f) && CanFinalize(f, hash)
    ensures |Finalized(f, hash).levels| == |f.levels| - 1 && Finalized(f, hash).Front() == f.Front() + 1
  {
    FinalizeKeepsExactlyDescendants(f, hash);
  }

  lemma LevelIsPrefixIff(f: Forest, hash: BlockHash, i: nat)
    requires Valid(f) && CanFinalize(f, hash) && i < |f.levels| - 1
    ensures |Finalized(f, hash).levels| == |f.levels| - 1
    ensures Finalized(f, hash).levels[i] <= f.levels[i + 1] <==> DescendantsFirst(f.levels[i + 1], f.parents, hash)
  {
    assert |Finalized(f, hash).levels| == |f.levels| - 1 && Finalized(f, hash).levels[i] == Descendants(f.levels[i + 1], f.parents, hash) by {
      FinalizeKeepsExactlyDescendants(f, hash);
    }
    LevelsDoNotRepeat(f.levels, i + 1);
    DescendantsArePrefixIff(f.levels[i + 1], f.parents, hash);
  }

  lemma PrefixesAreDense(f: Forest, g: Forest)
    requires Dense(f) && |g.levels| == |f.levels| - 1 && g.Front() == f.Front() + 1
    requires forall i :: 0 <= i < |g.levels| ==> g.levels[i] <= f.levels[i + 1]
    ensures Dense(g)
  {
    forall i, j | 0 <= i < |g.levels| && 0 <= j < |g.levels[i]| ensures g.levels[i][j].journalKey == BlockJournal(g.Front() + i, j) {
      assert f.levels[i + 1][j].journalKey == BlockJournal(f.Front() + (i + 1), j);
    }
  }

  lemma {:induction false} LevelsDoNotRepeat(levels: seq<Level>, i: nat)
    requires Distinct(levels) && i < |levels|
    ensures NoRepeat(levels[i])
  {
    if i > 0 {
      LevelsDoNotRepeat(levels[1..], i - 1);
    }
  }

  lemma LevelUnmoved(f: Forest, hash: BlockHash, i: nat)
    requires CanFinalize(f, hash) && Dense(f) && Dense(Finalized(f, hash)) && i < |f.levels| - 1
    ensures Finalized(f, hash).levels[i] <= f.levels[i + 1]
  {
    var f', losers, below := Finalized(f, hash), Losers(f, hash), f.levels[1..];
    var doomed := DoomedAbove(below, f.parents, losers, i);
    SurvivorsAt(below, f.parents, losers, i);
    KeepIsShorter(below[i], f.parents, doomed);
    forall j | 0 <= j < |f'.levels[i]| ensures f'.levels[i][j] == f.levels[i + 1][j] {
      var from := KeepPosition(below[i], f.parents, doomed, j);
      assert f.levels[i + 1][from].journalKey == BlockJournal(f.Front() + (i + 1), from);
      assert f'.levels[i][j].journalKey == BlockJournal(f'.Front() + i, j);
    }
  }
}
