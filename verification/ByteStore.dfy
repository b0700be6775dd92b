/** The state database over a store of bytes: the bytes follow the metadata through every run, and
    what a restart reads from them is what it would read from the metadata. */
module ByteStore {
  import opened Primitives
  import opened Commits
  import opened Codec
  import opened MetaStore
  import opened Forests
  import opened Unfinalized
  import FJ = ForestJournal
  import FR = ForestRecovery
  import opened Pruning
  import opened StateRun
  import opened StateTheorems

  // ---------- What fits ----------

  /** The numbers in the key and in the value have successors in 64 bits. */
  predicate Roomy(k: MetaKey, v: MetaValue) {
    && (k.BlockJournal? ==> k.block + 1 < Pow256(8) && k.index + 1 < Pow256(8))
    && (k.DeathJournal? ==> k.block + 1 < Pow256(8))
    && (v.FinalizedAt? ==> v.number + 1 < Pow256(8))
    && (v.PrunedAt? ==> v.number + 1 < Pow256(8))
  }

  ghost predicate CleanAt(meta: Meta, k: MetaKey) {
    k in meta ==> Storable(k, meta[k]) && Roomy(k, meta[k])
  }

  ghost predicate Clean(meta: Meta) {
    forall k :: CleanAt(meta, k)
  }

  /** The value is of the kind that the key is read with. */
  predicate SameKind(k: MetaKey, v: MetaValue) {
    match k
    case LastFinalized => v.FinalizedAt?
    case LastPruned => v.PrunedAt?
    case BlockJournal(_, _) => v.Journaled?
    case DeathJournal(_) => v.Condemned?
  }

  /** The changes can be written: their keys and values fit. */
  ghost predicate Writable(c: ChangeSet<MetaKey, MetaValue>) {
    && AllFit(c)
    && forall i :: 0 <= i < |c.inserted| ==> Storable(c.inserted[i].0, c.inserted[i].1) && Roomy(c.inserted[i].0, c.inserted[i].1)
  }

  lemma {:induction false} CollectedIsClean(pairs: seq<(MetaKey, MetaValue)>)
    requires forall i :: 0 <= i < |pairs| ==> Storable(pairs[i].0, pairs[i].1) && Roomy(pairs[i].0, pairs[i].1)
    ensures Clean(Collect(pairs))
  {
    if pairs != [] {
      var init, last := pairs[..|pairs| - 1], pairs[|pairs| - 1];
      CollectedIsClean(init);
      forall k ensures CleanAt(Collect(pairs), k) {
        assert CleanAt(Collect(init), k);
      }
    }
  }

  lemma WriteKeepsClean(meta: Meta, c: ChangeSet<MetaKey, MetaValue>)
    requires Clean(meta) && Writable(c)
    ensures Clean(Applied(meta, c))
  {
    CollectedIsClean(c.inserted);
    forall k ensures CleanAt(Applied(meta, c), k) {
      assert CleanAt(meta, k) && CleanAt(Collect(c.inserted), k);
      AppliedAt(meta, c, k);
    }
  }

  // ---------- Runs ----------

  /** The metadata changes that a step commits. */
  ghost predicate Writes(maxBlocks: nat, m: Moment, e: Event, m': Moment, c: ChangeSet<MetaKey, MetaValue>) {
    match e
    case Insert(record, number) => number >= 1 && c == InsertCommit(m.sys.forest, record, number).meta
    case Finalize(hash) =>
      exists winner, noted, n: nat, commit :: FinalizeTo(m.sys, maxBlocks, hash, winner, noted, n, commit, m'.sys) && c == commit.meta
    case _ => c == ChangeSet([], [])
  }

  /** The store receives the encoded changes of every step, and all of them fit. */
  ghost predicate ByteRun(maxBlocks: nat, content: Key -> DBValue, moments: seq<Moment>, events: seq<Event>,
                          changes: seq<ChangeSet<MetaKey, MetaValue>>, stores: seq<Store>)
  {
    && Run(maxBlocks, content, moments, events)
    && |changes| == |events| && |stores| == |moments| && stores[0] == map[]
    && (forall i :: 0 <= i < |events| ==> ByteStep(maxBlocks, moments[i], events[i], moments[i + 1], changes[i], stores[i], stores[i + 1]))
  }

  ghost predicate ByteStep(maxBlocks: nat, m: Moment, e: Event, m': Moment, c: ChangeSet<MetaKey, MetaValue>, store: Store, store': Store) {
    Writes(maxBlocks, m, e, m', c) && Writable(c) && store' == Applied(store, EncodedChanges(c))
  }

  lemma StepAppliesChanges(maxBlocks: nat, content: Key -> DBValue, m: Moment, e: Event, m': Moment, c: ChangeSet<MetaKey, MetaValue>)
    requires Step(maxBlocks, content, m, e, m') && Writes(maxBlocks, m, e, m', c)
    ensures m'.sys.meta == Applied(m.sys.meta, c)
  {
    assert Collect<MetaKey, MetaValue>([]) == map[];
  }

  ghost predicate Mirrors(store: Store, meta: Meta) {
    Encodes(store, meta) && Clean(meta)
  }

  lemma NothingMirrors()
    ensures Mirrors(map[], map[])
  {
  }

  /** At every moment of every run the bytes in the store are those of the metadata. */
  lemma {:induction false} EveryByteRunMirrors(maxBlocks: nat, content: Key -> DBValue, moments: seq<Moment>, events: seq<Event>,
                                               changes: seq<ChangeSet<MetaKey, MetaValue>>, stores: seq<Store>, i: nat)
    requires ByteRun(maxBlocks, content, moments, events, changes, stores) && i < |moments|
    ensures Mirrors(stores[i], moments[i].sys.meta)
  {
    if i == 0 {
      NothingMirrors();
      assert stores[0] == map[] && moments[0].sys.meta == map[];
    } else {
      EveryByteRunMirrors(maxBlocks, content, moments, events, changes, stores, i - 1);
      NextMirrors(maxBlocks, content, moments, events, changes, stores, i - 1);
    }
  }

  lemma NextMirrors(maxBlocks: nat, content: Key -> DBValue, moments: seq<Moment>, events: seq<Event>,
                    changes: seq<ChangeSet<MetaKey, MetaValue>>, stores: seq<Store>, i: nat)
    requires ByteRun(maxBlocks, content, moments, events, changes, stores) && i < |events| && Mirrors(stores[i], moments[i].sys.meta)
    ensures Mirrors(stores[i + 1], moments[i + 1].sys.meta)
  {
    StepMirrors(maxBlocks, content, moments[i], events[i], moments[i + 1], changes[i], stores[i], stores[i + 1]);
  }

  lemma StepMirrors(maxBlocks: nat, content: Key -> DBValue, m: Moment, e: Event, m': Moment, c: ChangeSet<MetaKey, MetaValue>, store: Store, store': Store)
    requires Step(maxBlocks, content, m, e, m') && ByteStep(maxBlocks, m, e, m', c, store, store') && Mirrors(store, m.sys.meta)
    ensures Mirrors(store', m'.sys.meta)
  {
    StepAppliesChanges(maxBlocks, content, m, e, m', c);
    CommitIsFaithful(store, m.sys.meta, c);
    WriteKeepsClean(m.sys.meta, c);
  }

  // ---------- Reading ----------

  ghost function Found(meta: Meta, k: MetaKey): Option<MetaValue> {
    if k in meta then Some(meta[k]) else None
  }

  /** The value read is what the metadata holds, of the right kind, with room for what comes next. */
  ghost predicate Fetched(meta: Meta, k: MetaKey, v: Option<MetaValue>) {
    v == Found(meta, k) && (v.Some? ==> SameKind(k, v.value) && Roomy(k, v.value))
  }

  /** Look a key up and decode the value. */
  function GetMeta(store: Store, k: MetaKey): Option<MetaValue> {
    if KeyBytes(k) !in store then None else ReadValue(k, store[KeyBytes(k)])
  }

  type Getter = MetaKey -> Option<MetaValue>

  /** Lookups give what the metadata holds. */
  ghost predicate Reads(get: Getter, meta: Meta) {
    forall k {:trigger get(k)} :: Fits(k) ==> Fetched(meta, k, get(k))
  }

  /** Reading from bytes that mirror the metadata is reading the metadata: what was stored can be
      decoded. */
  lemma BytesAreRead(store: Store, meta: Meta)
    requires Mirrors(store, meta)
    ensures Reads(k => GetMeta(store, k), meta)
  {
    forall k | Fits(k) ensures Fetched(meta, k, GetMeta(store, k)) {
      assert CleanAt(meta, k);
      LookupIsFaithful(store, meta, k);
    }
  }

  method ReadOneLevel(get: Getter, block: nat, parents: Parents, ghost meta: Meta) returns (level: Level, parents': Parents)
    requires Reads(get, meta) && block < Pow256(8)
    ensures FR.ReadLevel(meta, block, 0).Ok?
    ensures var records := FR.ReadLevel(meta, block, 0).value; level == FR.LevelOf(records, block) && parents' == FR.Links(parents, records)
  {
    level, parents' := [], parents;
    var index := 0;
    ghost var read: seq<BlockRecord> := [];
    FR.PrefixedNothing(FR.ReadLevel(meta, block, 0));
    var v := get(BlockJournal(block, index));
    while v.Some?
      invariant index == |read| && index < Pow256(8)
      invariant Fetched(meta, BlockJournal(block, index), v)
      invariant level == FR.LevelOf(read, block) && parents' == FR.Links(parents, read)
      invariant FR.ReadLevel(meta, block, 0) == FR.Prefixed(read, FR.ReadLevel(meta, block, index))
      decreases FR.EntriesFrom(meta, block, index)
    {
      var k := BlockJournal(block, index);
      assert k in FR.EntriesFrom(meta, block, index) && k !in FR.EntriesFrom(meta, block, index + 1);
      var record := v.value.block;
      level := level + [BlockOverlay(record.hash, k, Collect(record.inserted), record.deleted)];
      parents' := parents'[record.hash := record.parent];
      assert (read + [record])[..|read|] == read;
      FR.PrefixedStep(read, record, FR.ReadLevel(meta, block, index + 1));
      read := read + [record];
      index := index + 1;
      v := get(BlockJournal(block, index));
    }
    assert read + [] == read;
  }

  /** A block with a record is not the last that has a number. */
  lemma LevelHasRoom(get: Getter, meta: Meta, block: nat)
    requires Reads(get, meta) && block < Pow256(8) && FR.ReadLevel(meta, block, 0).Ok? && FR.ReadLevel(meta, block, 0).value != []
    ensures BlockJournal(block, 0) in FR.EntriesAbove(meta, block) && BlockJournal(block, 0) !in FR.EntriesAbove(meta, block + 1)
    ensures block + 1 < Pow256(8)
  {
    assert Fetched(meta, BlockJournal(block, 0), get(BlockJournal(block, 0)));
  }

  method ReadAllLevels(get: Getter, first: nat, ghost meta: Meta) returns (levels: seq<Level>, parents: Parents)
    requires Reads(get, meta) && first < Pow256(8)
    ensures FR.ReadLevels(meta, first).Ok?
    ensures var read := FR.ReadLevels(meta, first).value; levels == FR.LevelsOf(read, first) && parents == FR.AllLinks(read)
  {
    var block := first;
    levels, parents := [], map[];
    ghost var read: seq<seq<BlockRecord>> := [];
    FR.PrefixedNothing(FR.ReadLevels(meta, first));
    while true
      invariant block == first + |read| && block < Pow256(8)
      invariant levels == FR.LevelsOf(read, first) && parents == FR.AllLinks(read)
      invariant FR.ReadLevels(meta, first) == FR.Prefixed(read, FR.ReadLevels(meta, block))
      decreases FR.EntriesAbove(meta, block)
    {
      var level, parents' := ReadOneLevel(get, block, parents, meta);
      if level == [] {
        break;
      }
      ghost var records := FR.ReadLevel(meta, block, 0).value;
      LevelHasRoom(get, meta, block);
      assert (read + [records])[..|read|] == read;
      levels, parents := levels + [level], parents';
      FR.PrefixedStep(read, records, FR.ReadLevels(meta, block + 1));
      read := read + [records];
      block := block + 1;
    }
    assert read + [] == read;
  }

  /** The forest read from the bytes is the one read from the metadata. */
  method RecoverForest(get: Getter, ghost meta: Meta) returns (r: UnfinalizedOverlay)
    requires Reads(get, meta)
    ensures fresh(r) && Ok(r.Contents()) == FR.Recovered(meta)
  {
    var last := get(LastFinalized);
    if last.None? {
      r := new UnfinalizedOverlay(EMPTY_FOREST);
      return;
    }
    var hash, number := last.value.hash, last.value.number;
    var levels, parents := ReadAllLevels(get, number + 1, meta);
    RecoveredFrom(meta, hash, number);
    r := new UnfinalizedOverlay(Forest(Some((hash, number)), levels, parents));
  }

  lemma RecoveredFrom(meta: Meta, hash: BlockHash, number: nat)
    requires Found(meta, LastFinalized) == Some(FinalizedAt(hash, number)) && FR.ReadLevels(meta, number + 1).Ok?
    ensures var levels := FR.ReadLevels(meta, number + 1).value;
            FR.Recovered(meta) == Ok(Forest(Some((hash, number)), FR.LevelsOf(levels, number + 1), FR.AllLinks(levels)))
  {
  }

  /** The pruning window replayed from the bytes is the one replayed from the metadata. */
  method RecoverWindow(get: Getter, ghost meta: Meta) returns (r: RefWindow)
    requires Reads(get, meta)
    ensures fresh(r) && Replayed(meta, r.Contents())
    ensures forall pending: nat, log :: JournaledIn(pending, log, meta) ==> Builds(pending, log, r.Contents())
  {
    var last := get(LastPruned);
    var pending := if last.Some? then last.value.number + 1 else 1;
    assert ReadPending(meta) == Ok(pending);
    assert pending < Pow256(8);
    r := new RefWindow(pending);
    var block := pending;
    ghost var read: seq<DeathRecord> := [];
    var v := get(DeathJournal(block));
    while v.Some?
      invariant fresh(r) && block == pending + |read| && block < Pow256(8)
      invariant Fetched(meta, DeathJournal(block), v)
      invariant RefWindow.Replaying(meta, pending, read, r.Contents())
      decreases RefWindow.Remaining(meta, block)
    {
      var k := DeathJournal(block);
      assert k in RefWindow.Remaining(meta, block) && k !in RefWindow.Remaining(meta, block + 1);
      var record := v.value.death;
      ghost var before := r.Contents();
      r.Import(record.hash, k, record.inserted, record.deleted);
      RefWindow.ReplayStep(meta, pending, read, before, record, r.Contents());
      read := read + [record];
      block := block + 1;
      v := get(DeathJournal(block));
    }
    RefWindow.ReplayEnds(meta, pending, read, r.Contents());
  }

  /** A restart from the bytes at any moment of a run: the pruning window comes back, and the
      forest comes back if and only if its journal indices are dense. */
  method Reopen(store: Store, ghost maxBlocks: nat, ghost content: Key -> DBValue, ghost moments: seq<Moment>, ghost events: seq<Event>,
                ghost changes: seq<ChangeSet<MetaKey, MetaValue>>, ghost stores: seq<Store>, ghost i: nat)
    returns (unfinalized: UnfinalizedOverlay, pruning: RefWindow)
    requires ByteRun(maxBlocks, content, moments, events, changes, stores) && i < |moments| && store == stores[i]
    ensures pruning.Contents() == moments[i].sys.window
    ensures unfinalized.Contents() == FR.Trim(moments[i].sys.forest) <==> FJ.Dense(moments[i].sys.forest)
  {
    ghost var meta := moments[i].sys.meta;
    EveryByteRunMirrors(maxBlocks, content, moments, events, changes, stores, i);
    BytesAreRead(store, meta);
    unfinalized := RecoverForest(k => GetMeta(store, k), meta);
    pruning := RecoverWindow(k => GetMeta(store, k), meta);
    EveryRunRecovers(maxBlocks, content, moments, events, i, pruning.Contents());
  }
}
