/** When the store holds the retained states and nothing else: on every run whose blocks delete
    only keys of their parents' states. */
module StateExact {
  import opened Primitives
  import opened Commits
  import opened Forests
  import opened Unfinalized
  import opened Finality
  import FJ = ForestJournal
  import opened Pruning
  import opened StateRun
  import opened StateTheorems

  // ---------- Blocks that delete what their parent has ----------

  /** An inserted block deletes only keys of its parent's state. */
  ghost predicate Tidy(m: Moment, record: BlockRecord) {
    var states := Known(m.sys, m.hist, record.parent);
    record.parent in states && Elems(record.deleted) <= states[record.parent]
  }

  ghost predicate TidyRun(moments: seq<Moment>, events: seq<Event>)
    requires |moments| == |events| + 1
  {
    forall i :: 0 <= i < |events| && events[i].Insert? ==> Tidy(moments[i], events[i].record)
  }

  ghost predicate TidyBlock(b: BlockOverlay, parents: Parents, states: map<BlockHash, set<Key>>) {
    b.hash in parents && parents[b.hash] in states && Elems(b.deleted) <= states[parents[b.hash]]
  }

  ghost predicate TidyForest(f: Forest, states: map<BlockHash, set<Key>>) {
    forall i, j :: 0 <= i < |f.levels| && 0 <= j < |f.levels[i]| ==> TidyBlock(f.levels[i][j], f.parents, states)
  }

  ghost predicate TidyLog(h: History) {
    && |h.kept| >= |h.log|
    && forall i :: 0 <= i < |h.log| ==> h.kept[i] in h.states && Elems(h.log[i].deleted) <= h.states[h.kept[i]]
  }

  ghost predicate AllTidy(m: Moment) {
    TidyForest(m.sys.forest, m.hist.states) && TidyLog(m.hist)
  }

  lemma InsertKeepsTidy(content: Key -> DBValue, m: Moment, record: BlockRecord, number: nat, m': Moment)
    requires Inv(m.sys, m.hist, content) && InsertMoment(content, m, record, number, m')
    requires AllTidy(m) && Tidy(m, record)
    ensures AllTidy(m')
  {
    var f, f', h, h' := m.sys.forest, m'.sys.forest, m.hist, m'.hist;
    forall i: nat, j: nat | i < |f'.levels| && j < |f'.levels[i]| ensures TidyBlock(f'.levels[i][j], f'.parents, h'.states) {
      FJ.InsertedAt(f, record, number, i, j);
      if i < |f.levels| && j < |f.levels[i]| {
        assert TidyBlock(f.levels[i][j], f.parents, h.states);
        assert Grown(f.levels[i][j], f.parents, h.states, content);
      }
    }
  }

  lemma FinalizeKeepsTidyForest(f: Forest, hash: BlockHash, states: map<BlockHash, set<Key>>)
    requires Valid(f) && CanFinalize(f, hash) && TidyForest(f, states)
    ensures TidyForest(Finalized(f, hash), states)
  {
    var f' := Finalized(f, hash);
    forall i, j | 0 <= i < |f'.levels| && 0 <= j < |f'.levels[i]| ensures TidyBlock(f'.levels[i][j], f'.parents, states) {
      var b, below := f'.levels[i][j], f.levels[1..];
      SurvivorsAt(below, f.parents, Losers(f, hash), i);
      KeepElements(below[i], f.parents, DoomedAbove(below, f.parents, Losers(f, hash), i));
      assert b in f.levels[i + 1];
      FJ.SurvivorKeepsParent(f, hash, i, b);
    }
  }

  /** The finalized block hangs from the last finalized one, so its deletions are tidy in the log. */
  lemma WinnerIsTidy(s: System, h: History, hash: BlockHash, winner: BlockOverlay)
    requires Valid(s.forest) && Started(s, h) && TidyForest(s.forest, h.states) && CanFinalize(s.forest, hash)
    requires winner in s.forest.levels[0] && winner.hash == hash
    ensures Elems(winner.deleted) <= h.states[h.kept[|h.log|]]
  {
    var j :| 0 <= j < |s.forest.levels[0]| && s.forest.levels[0][j] == winner;
    assert TidyBlock(s.forest.levels[0][j], s.forest.parents, h.states);
    RootsHangFromTop(s.forest, hash);
  }

  lemma ExtendKeepsTidyLog(h: History, r: DeathRecord, n: nat)
    requires TidyLog(h) && |h.kept| == |h.log| + 1 && n <= |h.log| + 1
    requires h.kept[|h.log|] in h.states && Elems(r.deleted) <= h.states[h.kept[|h.log|]]
    ensures TidyLog(FinalizeHistory(h, r, n))
  {
    var e, h' := Extended(h, r), FinalizeHistory(h, r, n);
    forall i | 0 <= i < |h'.log| ensures h'.kept[i] in h'.states && Elems(h'.log[i].deleted) <= h'.states[h'.kept[i]] {
      assert h'.kept[i] == e.kept[i + n] && h'.log[i] == e.log[i + n];
    }
  }

  lemma FinalizeKeepsTidy(maxBlocks: nat, content: Key -> DBValue, m: Moment, hash: BlockHash, m': Moment)
    requires Inv(m.sys, m.hist, content) && FinalizeMoment(maxBlocks, m, hash, m') && AllTidy(m)
    ensures AllTidy(m')
  {
    var winner, noted, n: nat, commit :|
      && FinalizeTo(m.sys, maxBlocks, hash, winner, noted, n, commit, m'.sys)
      && |m.hist.kept| == |m.hist.log| + 1 && n <= |m.hist.log| + 1
      && m'.hist == FinalizeHistory(m.hist, RecordOf(winner, commit), n);
    FinalizeKeepsTidyForest(m.sys.forest, hash, m.hist.states);
    WinnerIsTidy(m.sys, m.hist, hash, winner);
    ExtendKeepsTidyLog(m.hist, RecordOf(winner, commit), n);
  }

  lemma RestartKeepsTidy(content: Key -> DBValue, m: Moment, m': Moment)
    requires Inv(m.sys, m.hist, content) && AllTidy(m)
    requires FJ.Dense(m.sys.forest) && RestartStep(m.sys, m'.sys) && m'.hist == m.hist
    ensures AllTidy(m')
  {
    RestartKeepsInv(m.sys, m.hist, content, m'.sys);
    TrimmedIsPrefix(m.sys.forest.levels);
    forall i, j | 0 <= i < |m'.sys.forest.levels| && 0 <= j < |m'.sys.forest.levels[i]|
      ensures TidyBlock(m'.sys.forest.levels[i][j], m'.sys.forest.parents, m'.hist.states) {
      assert TidyBlock(m.sys.forest.levels[i][j], m.sys.forest.parents, m.hist.states);
    }
  }

  lemma {:induction false} RunKeepsTidy(maxBlocks: nat, content: Key -> DBValue, moments: seq<Moment>, events: seq<Event>, i: nat)
    requires Run(maxBlocks, content, moments, events) && TidyRun(moments, events) && i < |moments|
    ensures AllTidy(moments[i])
  {
    if i > 0 {
      RunKeepsTidy(maxBlocks, content, moments, events, i - 1);
      RunKeepsInv(maxBlocks, content, moments, events, i - 1);
      var m, e, m' := moments[i - 1], events[i - 1], moments[i];
      assert Step(maxBlocks, content, m, e, m');
      match e {
        case Insert(record, number) => InsertKeepsTidy(content, m, record, number, m');
        case Finalize(hash) => FinalizeKeepsTidy(maxBlocks, content, m, hash, m');
        case Restart => RestartKeepsTidy(content, m, m');
        case _ =>
      }
    }
  }

  // ---------- Exactness ----------

  ghost predicate Exact(m: Moment)
    requires Chained(m.hist)
  {
    m.sys.data.Keys == KeptStates(m.hist)
  }

  /** On every run whose blocks delete only keys of their parents' states, the store holds at every
      moment the union of the retained states and nothing else. */
  lemma EveryTidyRunIsExact(maxBlocks: nat, content: Key -> DBValue, moments: seq<Moment>, events: seq<Event>, i: nat)
    requires Run(maxBlocks, content, moments, events) && TidyRun(moments, events)
    requires i < |moments| && moments[i].sys.forest.lastFinalized.Some?
    ensures Chained(moments[i].hist) && Exact(moments[i])
  {
    var s, h := moments[i].sys, moments[i].hist;
    RunKeepsInv(maxBlocks, content, moments, events, i);
    RunKeepsTidy(maxBlocks, content, moments, events, i);
    forall n, k | 0 <= n < |h.log| ensures !Leaks(h, n, k) {
      if k in h.log[n].deleted {
        assert k in Elems(h.log[n].deleted);
        assert k in h.states[h.kept[n]];
      }
    }
    StoreIsExactIff(s, h);
  }

  // ---------- One block that does not ----------

  /** What inserting a block into an untouched database and finalizing it gives: its parent's state
      is the store's, and the log has its changes. */
  lemma OneBlockHistory(maxBlocks: nat, content: Key -> DBValue, moments: seq<Moment>, r: BlockRecord, number: nat)
    requires maxBlocks >= 1 && Run(maxBlocks, content, moments, [Insert(r, number), Finalize(r.hash)])
    ensures var h := moments[2].hist;
            && h.kept == [r.parent, r.hash] && |h.log| == 1 && r.parent in h.states && r.hash in h.states
            && h.states[r.parent] == moments[0].sys.data.Keys
            && h.states[r.hash] == moments[0].sys.data.Keys + Collect(r.inserted).Keys - Elems(r.deleted)
            && Elems(h.log[0].inserted) == Collect(r.inserted).Keys && h.log[0].deleted == r.deleted
            && Elems(r.deleted) <= moments[0].sys.data.Keys + Collect(r.inserted).Keys
    ensures moments[2].sys.forest.lastFinalized.Some?
  {
    var events := [Insert(r, number), Finalize(r.hash)];
    assert Step(maxBlocks, content, moments[0], events[0], moments[1]);
    assert Step(maxBlocks, content, moments[1], events[1], moments[2]);
    OneBlockForest(r, number);
    OneBlockLog(maxBlocks, moments[1], r, number, moments[2]);
  }

  /** The only block is finalized and nothing is pruned. */
  lemma OneBlockLog(maxBlocks: nat, m: Moment, r: BlockRecord, number: nat, m': Moment)
    requires maxBlocks >= 1 && FinalizeMoment(maxBlocks, m, r.hash, m')
    requires m.sys.forest.levels == [[OverlayOf(r, BlockJournal(number, 0))]] && m.sys.window.rows == []
    requires m.hist.kept == [r.parent] && m.hist.log == []
    ensures m'.sys.forest.lastFinalized.Some?
    ensures m'.hist.states == m.hist.states && m'.hist.kept == [r.parent, r.hash] && |m'.hist.log| == 1
    ensures Elems(m'.hist.log[0].inserted) == Collect(r.inserted).Keys && m'.hist.log[0].deleted == r.deleted
  {
    var winner, noted, n: nat, commit :|
      && FinalizeTo(m.sys, maxBlocks, r.hash, winner, noted, n, commit, m'.sys)
      && |m.hist.kept| == |m.hist.log| + 1 && n <= |m.hist.log| + 1
      && m'.hist == FinalizeHistory(m.hist, RecordOf(winner, commit), n);
    assert n == 0;
    NotedKeys(winner.hash, ChangeSet(commit.data.inserted, winner.deleted));
    assert [r.parent] + [r.hash] == [r.parent, r.hash];
  }

  lemma OneBlockForest(r: BlockRecord, number: nat)
    requires number >= 1
    ensures Inserted(EMPTY_FOREST, r, number)
         == Forest(Some((r.parent, number - 1)), [[OverlayOf(r, BlockJournal(number, 0))]], map[r.hash := r.parent])
  {
    var none: Level := [];
    assert none + [OverlayOf(r, BlockJournal(number, 0))] == [OverlayOf(r, BlockJournal(number, 0))];
  }

  /** The store is exact after one block if and only if the block deletes only keys that the
      store had. */
  lemma OneBlockIsExactIff(maxBlocks: nat, content: Key -> DBValue, moments: seq<Moment>, r: BlockRecord, number: nat)
    requires maxBlocks >= 1 && Run(maxBlocks, content, moments, [Insert(r, number), Finalize(r.hash)])
    ensures Chained(moments[2].hist)
    ensures Exact(moments[2]) <==> Elems(r.deleted) <= moments[0].sys.data.Keys
  {
    var s, h := moments[2].sys, moments[2].hist;
    RunKeepsInv(maxBlocks, content, moments, [Insert(r, number), Finalize(r.hash)], 2);
    OneBlockHistory(maxBlocks, content, moments, r, number);
    StoreIsExactIff(s, h);
    assert h.kept[0] == r.parent && h.kept[1] == r.hash;
    forall k ensures Leaks(h, 0, k) <==> k in Elems(r.deleted) && k !in moments[0].sys.data.Keys {
      assert k in h.log[0].inserted <==> k in Elems(h.log[0].inserted);
      assert k in h.states[h.kept[0]] ==> k in KeptStates(h);
    }
  }

  /** Such runs exist for every block that an untouched database accepts. */
  lemma OneBlockRun(maxBlocks: nat, content: Key -> DBValue, m: Moment, r: BlockRecord, number: nat) returns (moments: seq<Moment>)
    requires maxBlocks >= 1 && Initial(m, content) && InsertAllowed(m.sys, m.hist, content, r, number)
    ensures Run(maxBlocks, content, moments, [Insert(r, number), Finalize(r.hash)]) && moments[0] == m
  {
    var commit := InsertCommit(m.sys.forest, r, number);
    var s1 := m.sys.(forest := Inserted(m.sys.forest, r, number), data := Applied(m.sys.data, commit.data), meta := Applied(m.sys.meta, commit.meta));
    var m1 := Moment(s1, InsertHistory(m.sys, m.hist, r));
    OneBlockForest(r, number);
    var winner := OverlayOf(r, BlockJournal(number, 0));
    assert winner in m1.sys.forest.levels[0];
    var m2 := FirstFinalize(maxBlocks, m1, winner, r.inserted);
    moments := [m, m1, m2];
    var events := [Insert(r, number), Finalize(r.hash)];
    assert Step(maxBlocks, content, moments[0], events[0], moments[1]);
    assert Step(maxBlocks, content, moments[1], events[1], moments[2]);
  }

  /** A block that inserts and deletes a new key: at the end of this run the key is in the store
      and in no block's state. */
  lemma InsertedAndDeletedLeaks(content: Key -> DBValue, k: Key, top: BlockHash, b: BlockHash) returns (moments: seq<Moment>)
    requires top != b
    ensures Run(1, content, moments, [Insert(BlockRecord(b, top, [(k, content(k))], [k]), 1), Finalize(b)])
    ensures moments[0].sys.data == map[] && Chained(moments[2].hist)
    ensures moments[2].sys.data.Keys == {k} && KeptStates(moments[2].hist) == {}
  {
    var r := BlockRecord(b, top, [(k, content(k))], [k]);
    var m := Moment(System(EMPTY_FOREST, Window(1, [], map[]), {}, map[], map[]), History(map[], [], []));
    CollectOne(k, content(k));
    assert Elems([k]) == {k};
    moments := OneBlockRun(1, content, m, r, 1);
    RunKeepsInv(1, content, moments, [Insert(r, 1), Finalize(b)], 2);
    OneBlockHistory(1, content, moments, r, 1);
    var h := moments[2].hist;
    assert h.kept[0] == top && h.kept[1] == b;
    InsertsAppend([], h.log[0]);
    assert [] + [h.log[0]] == h.log && Inserts([]) == {};
  }
}
