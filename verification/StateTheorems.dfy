/** Runs of the constrained state database from an empty start, and what holds at every
    point of every run. */
module StateTheorems {
  import opened Primitives
  import opened Commits
  import opened Forests
  import opened Unfinalized
  import opened Pruning
  import opened StateDb
  import opened StateRun

  datatype Event =
    | Genesis(changes: ChangeSet<Key, DBValue>)
    | Insert(record: BlockRecord, number: nat)
    | Finalize(hash: BlockHash)
    | Pin(hash: BlockHash)
    | Unpin(hash: BlockHash)
    | Restart

  datatype Moment = Moment(sys: System, hist: History)

  ghost predicate Initial(m: Moment, content: Key -> DBValue) {
    && m.sys.forest == EMPTY_FOREST && m.sys.window == Window(1, [], map[]) && m.sys.pinned == {} && m.sys.meta == map[]
    && (forall k :: k in m.sys.data ==> m.sys.data[k] == content(k))
    && m.hist == History(map[], [], [])
  }

  /** A block with number 0 is written straight to the store. */
  ghost predicate GenesisStep(content: Key -> DBValue, s: System, changes: ChangeSet<Key, DBValue>, s': System) {
    && s.forest.lastFinalized.None?
    && (forall k :: k in Collect(changes.inserted) ==> Collect(changes.inserted)[k] == content(k))
    && s' == s.(data := Applied(s.data, changes))
  }

  ghost predicate InsertMoment(content: Key -> DBValue, m: Moment, record: BlockRecord, number: nat, m': Moment) {
    && InsertAllowed(m.sys, m.hist, content, record, number)
    && InsertStep(m.sys, record, number, m'.sys)
    && m'.hist == InsertHistory(m.sys, m.hist, record)
  }

  ghost predicate FinalizeMoment(maxBlocks: nat, m: Moment, hash: BlockHash, m': Moment) {
    exists winner, noted, n: nat, commit ::
      && FinalizeTo(m.sys, maxBlocks, hash, winner, noted, n, commit, m'.sys)
      && |m.hist.kept| == |m.hist.log| + 1 && n <= |m.hist.log| + 1
      && m'.hist == FinalizeHistory(m.hist, RecordOf(winner, commit), n)
  }

  /** One operation and the application of its commit to the store. A restart is part of a
      run when the journal indices are dense. */
  ghost predicate Step(maxBlocks: nat, content: Key -> DBValue, m: Moment, e: Event, m': Moment) {
    match e
    case Genesis(changes) => GenesisStep(content, m.sys, changes, m'.sys) && m'.hist == m.hist
    case Insert(record, number) => InsertMoment(content, m, record, number, m')
    case Finalize(hash) => FinalizeMoment(maxBlocks, m, hash, m')
    case Pin(hash) => m' == m.(sys := m.sys.(pinned := m.sys.pinned + {hash}))
    case Unpin(hash) => m' == m.(sys := m.sys.(pinned := m.sys.pinned - {hash}))
    case Restart => FJ.Dense(m.sys.forest) && RestartStep(m.sys, m'.sys) && m'.hist == m.hist
  }

  ghost predicate Run(maxBlocks: nat, content: Key -> DBValue, moments: seq<Moment>, events: seq<Event>) {
    && |moments| == |events| + 1
    && Initial(moments[0], content)
    && forall i :: 0 <= i < |events| ==> Step(maxBlocks, content, moments[i], events[i], moments[i + 1])
  }

  lemma RunSnoc(maxBlocks: nat, content: Key -> DBValue, moments: seq<Moment>, events: seq<Event>, e: Event, m: Moment)
    requires Run(maxBlocks, content, moments, events) && Step(maxBlocks, content, moments[|events|], e, m)
    ensures Run(maxBlocks, content, moments + [m], events + [e])
  {
    var moments', events' := moments + [m], events + [e];
    forall i | 0 <= i < |events'| ensures Step(maxBlocks, content, moments'[i], events'[i], moments'[i + 1]) {
      if i < |events| {
        assert moments'[i] == moments[i] && moments'[i + 1] == moments[i + 1] && events'[i] == events[i];
      }
    }
  }

  lemma StepKeepsInv(maxBlocks: nat, content: Key -> DBValue, m: Moment, e: Event, m': Moment)
    requires Inv(m.sys, m.hist, content) && Step(maxBlocks, content, m, e, m')
    ensures Inv(m'.sys, m'.hist, content)
  {
    match e {
      case Genesis(changes) => GenesisKeepsInv(content, m.sys, m.hist, changes, m'.sys);
      case Insert(record, number) => InsertKeepsInv(m.sys, m.hist, content, record, number, m'.sys);
      case Finalize(hash) => FinalizeMomentKeepsInv(maxBlocks, content, m, hash, m');
      case Pin(_) => PinsAreIrrelevant(m.sys, m.hist, content, m'.sys);
      case Unpin(_) => PinsAreIrrelevant(m.sys, m.hist, content, m'.sys);
      case Restart => RestartKeepsInv(m.sys, m.hist, content, m'.sys);
    }
  }

  lemma GenesisKeepsInv(content: Key -> DBValue, s: System, h: History, changes: ChangeSet<Key, DBValue>, s': System)
    requires Inv(s, h, content) && GenesisStep(content, s, changes, s')
    ensures Inv(s', h, content)
  {
  }

  lemma PinsAreIrrelevant(s: System, h: History, content: Key -> DBValue, s': System)
    requires Inv(s, h, content) && s' == s.(pinned := s'.pinned)
    ensures Inv(s', h, content)
  {
  }

  lemma FinalizeMomentKeepsInv(maxBlocks: nat, content: Key -> DBValue, m: Moment, hash: BlockHash, m': Moment)
    requires Inv(m.sys, m.hist, content) && FinalizeMoment(maxBlocks, m, hash, m')
    ensures Inv(m'.sys, m'.hist, content)
  {
    var winner, noted, n: nat, commit :|
      && FinalizeTo(m.sys, maxBlocks, hash, winner, noted, n, commit, m'.sys)
      && |m.hist.kept| == |m.hist.log| + 1 && n <= |m.hist.log| + 1
      && m'.hist == FinalizeHistory(m.hist, RecordOf(winner, commit), n);
    FinalizeKeepsInv(m.sys, m.hist, content, maxBlocks, hash, winner, noted, n, commit, m'.sys);
  }

  lemma InitialInv(m: Moment, content: Key -> DBValue)
    requires Initial(m, content)
    ensures Inv(m.sys, m.hist, content)
  {
  }

  lemma {:induction false} RunKeepsInv(maxBlocks: nat, content: Key -> DBValue, moments: seq<Moment>, events: seq<Event>, i: nat)
    requires Run(maxBlocks, content, moments, events) && i < |moments|
    ensures Inv(moments[i].sys, moments[i].hist, content)
  {
    if i == 0 {
      InitialInv(moments[0], content);
    } else {
      RunKeepsInv(maxBlocks, content, moments, events, i - 1);
      StepKeepsInv(maxBlocks, content, moments[i - 1], events[i - 1], moments[i]);
    }
  }

  // ---------- What the store holds ----------

  /** The states of the retained finalized blocks. */
  ghost function KeptStates(h: History): set<Key>
    requires Chained(h)
  {
    set i, k | 0 <= i < |h.kept| && k in h.states[h.kept[i]] :: k
  }

  lemma {:induction false} KeptIsRetained(h: History, i: nat)
    requires Chained(h) && i < |h.kept|
    ensures h.states[h.kept[i]] <= Retained(h)
  {
    if i > 0 {
      KeptIsRetained(h, i - 1);
      assert LinkedAt(h, i - 1);
      assert forall k :: k in h.log[i - 1].inserted ==> k in Inserts(h.log);
    }
  }

  /** A key both inserted and deleted by block `i`, and alive in no retained block. */
  ghost predicate Leaks(h: History, i: nat, k: Key)
    requires Chained(h) && i < |h.log|
  {
    k in h.log[i].inserted && k in h.log[i].deleted && k !in KeptStates(h)
  }

  /** The store holds exactly the retained states unless some retained block both inserted
      and deleted a key that no retained block has. */
  lemma StoreIsExactIff(s: System, h: History)
    requires Started(s, h)
    ensures KeptStates(h) <= s.data.Keys
    ensures s.data.Keys == KeptStates(h) <==> forall i, k :: 0 <= i < |h.log| ==> !Leaks(h, i, k)
  {
    forall i, k | 0 <= i < |h.kept| && k in h.states[h.kept[i]] ensures k in s.data {
      KeptIsRetained(h, i);
    }
    forall k | k in s.data && k !in KeptStates(h) ensures exists i :: 0 <= i < |h.log| && Leaks(h, i, k) {
      assert k !in h.states[h.kept[0]];
      var i :| 0 <= i < |h.log| && k in h.log[i].inserted;
      assert LinkedAt(h, i);
      assert k !in h.states[h.kept[i + 1]];
      assert Leaks(h, i, k);
    }
    forall i, k | 0 <= i < |h.log| && Leaks(h, i, k) ensures k in s.data {
      assert k in Inserts(h.log);
    }
  }

  // ---------- Readability ----------

  ghost predicate Readable(s: System, k: Key) {
    k in s.data || Overlaid(s.forest.levels, k)
  }

  lemma {:induction false} BlockIsReadable(s: System, h: History, content: Key -> DBValue, i: nat, j: nat, k: Key)
    requires Started(s, h) && Valid(s.forest) && AllGrown(s.forest, h.states, content)
    requires i < |s.forest.levels| && j < |s.forest.levels[i]| && k in h.states[s.forest.levels[i][j].hash]
    ensures Readable(s, k)
  {
    var f, b := s.forest, s.forest.levels[i][j];
    assert Grown(b, f.parents, h.states, content);
    if k !in b.values {
      ParentIsAbove(f.levels, f.parents, {f.lastFinalized.value.0}, i, b);
      if i == 0 {
        KeptIsRetained(h, |h.log|);
      } else {
        var j' :| 0 <= j' < |f.levels[i - 1]| && f.levels[i - 1][j'].hash == f.parents[b.hash];
        BlockIsReadable(s, h, content, i - 1, j', k);
      }
    }
  }

  lemma {:induction false} ParentIsAbove(levels: seq<Level>, parents: Parents, roots: set<BlockHash>, i: nat, b: BlockOverlay)
    requires Rooted(levels, parents, roots) && i < |levels| && b in levels[i]
    ensures b.hash in parents && parents[b.hash] in if i == 0 then roots else Hashes(levels[i - 1])
  {
    if i > 0 {
      ParentIsAbove(levels[1..], parents, Hashes(levels[0]), i - 1, b);
    }
  }

  lemma ReadsAreRight(s: System, h: History, content: Key -> DBValue, k: Key, v: DBValue)
    requires AllGrown(s.forest, h.states, content) && StoreInv(s, h, content)
    requires (k in s.data && s.data[k] == v) || OverlaidAs(s.forest.levels, k, v)
    ensures v == content(k)
  {
    if OverlaidAs(s.forest.levels, k, v) {
      var i, j :| 0 <= i < |s.forest.levels| && 0 <= j < |s.forest.levels[i]|
        && k in s.forest.levels[i][j].values && s.forest.levels[i][j].values[k] == v;
      assert Grown(s.forest.levels[i][j], s.forest.parents, h.states, content);
    }
  }

  /** At every point of every run: the store holds the oldest retained state together with
      everything the retained blocks inserted; every key of every retained or unfinalized
      block's state can be read; and whatever is read is the key's value. */
  lemma EveryRunIsSafe(maxBlocks: nat, content: Key -> DBValue, moments: seq<Moment>, events: seq<Event>, i: nat)
    requires Run(maxBlocks, content, moments, events) && i < |moments| && moments[i].sys.forest.lastFinalized.Some?
    ensures var s, h := moments[i].sys, moments[i].hist;
            && Started(s, h)
            && s.data.Keys == h.states[h.kept[0]] + Inserts(h.log)
            && (forall n, k :: 0 <= n < |h.kept| && k in h.states[h.kept[n]] ==> k in s.data)
            && (forall n, j :: 0 <= n < |s.forest.levels| && 0 <= j < |s.forest.levels[n]| ==> s.forest.levels[n][j].hash in h.states)
            && (forall n, j, k :: (0 <= n < |s.forest.levels| && 0 <= j < |s.forest.levels[n]| && k in h.states[s.forest.levels[n][j].hash])
                  ==> Readable(s, k))
            && (forall k, v :: (k in s.data && s.data[k] == v) || OverlaidAs(s.forest.levels, k, v) ==> v == content(k))
  {
    var s, h := moments[i].sys, moments[i].hist;
    RunKeepsInv(maxBlocks, content, moments, events, i);
    forall n, k | 0 <= n < |h.kept| && k in h.states[h.kept[n]] ensures k in s.data {
      KeptIsRetained(h, n);
    }
    forall n, j | 0 <= n < |s.forest.levels| && 0 <= j < |s.forest.levels[n]| ensures s.forest.levels[n][j].hash in h.states {
      assert Grown(s.forest.levels[n][j], s.forest.parents, h.states, content);
    }
    forall n, j, k | 0 <= n < |s.forest.levels| && 0 <= j < |s.forest.levels[n]| && k in h.states[s.forest.levels[n][j].hash]
      ensures Readable(s, k)
    {
      BlockIsReadable(s, h, content, n, j, k);
    }
    forall k, v | (k in s.data && s.data[k] == v) || OverlaidAs(s.forest.levels, k, v) ensures v == content(k) {
      ReadsAreRight(s, h, content, k, v);
    }
  }

  /** At every point of every run, restarting rebuilds the pruning window exactly, and
      rebuilds the forest exactly when its journal indices are dense. */
  lemma EveryRunRecovers(maxBlocks: nat, content: Key -> DBValue, moments: seq<Moment>, events: seq<Event>, i: nat, replayed: Window)
    requires Run(maxBlocks, content, moments, events) && i < |moments|
    requires Replayed(moments[i].sys.meta, replayed)
    ensures replayed == moments[i].sys.window
    ensures FR.Recovered(moments[i].sys.meta) == Ok(FR.Trim(moments[i].sys.forest)) <==> FJ.Dense(moments[i].sys.forest)
  {
    var s, h := moments[i].sys, moments[i].hist;
    RunKeepsInv(maxBlocks, content, moments, events, i);
    TracksIsUnique(s.window, replayed, h.log);
    FR.RecoveryIsExactIffDense(s.forest, s.meta);
  }

  /** After every finalization of every run the pruning window is within its bound, unless
      its front block is pinned. */
  lemma EveryFinalizeBoundsWindow(maxBlocks: nat, content: Key -> DBValue, moments: seq<Moment>, events: seq<Event>, i: nat)
    requires Run(maxBlocks, content, moments, events) && i < |events| && events[i].Finalize?
    ensures var w := moments[i + 1].sys.window;
            |w.rows| <= maxBlocks || w.rows[0].hash in moments[i].sys.pinned
  {
    var m, m', hash := moments[i], moments[i + 1], events[i].hash;
    assert Step(maxBlocks, content, m, events[i], m');
    var winner, noted, n: nat, commit :| FinalizeTo(m.sys, maxBlocks, hash, winner, noted, n, commit, m'.sys);
    FinalizeBoundsWindow(m.sys, maxBlocks, hash, winner, noted, n, commit, m'.sys);
  }

  /** A finalization adds its block to the window and drops `n` blocks from the front: none that is
      pinned, and none while the window holds no more than its bound. */
  ghost predicate Slides(w: Window, hash: BlockHash, maxBlocks: nat, pinned: set<BlockHash>, n: nat, w': Window) {
    && n <= |w.rows| + 1 && w'.pending == w.pending + n && |w'.rows| == |w.rows| + 1 - n
    && (forall i :: n <= i < |w.rows| ==> w'.rows[i - n].hash == w.rows[i].hash)
    && (n <= |w.rows| ==> w'.rows[|w.rows| - n].hash == hash)
    && (forall i :: 0 <= i < n && i < |w.rows| ==> w.rows[i].hash !in pinned)
    && (n == |w.rows| + 1 ==> hash !in pinned)
    && (n > 0 ==> |w'.rows| >= maxBlocks)
  }

  /** On every run, each finalization drops only blocks that are not pinned and that the bound does
      not allow for, from the oldest on. */
  lemma EveryFinalizeSlides(maxBlocks: nat, content: Key -> DBValue, moments: seq<Moment>, events: seq<Event>, i: nat)
    returns (n: nat)
    requires Run(maxBlocks, content, moments, events) && i < |events| && events[i].Finalize?
    ensures Slides(moments[i].sys.window, events[i].hash, maxBlocks, moments[i].sys.pinned, n, moments[i + 1].sys.window)
  {
    var m, m', hash := moments[i], moments[i + 1], events[i].hash;
    assert Step(maxBlocks, content, m, events[i], m');
    var winner, noted, pruned: nat, commit :| FinalizeTo(m.sys, maxBlocks, hash, winner, noted, pruned, commit, m'.sys);
    n := pruned;
    PruneSlides(m.sys.window, hash, RecordOf(winner, commit), noted, maxBlocks, m.sys.pinned, n);
  }

  lemma PruneSlides(w: Window, hash: BlockHash, r: DeathRecord, noted: Window, maxBlocks: nat, pinned: set<BlockHash>, n: nat)
    requires r.hash == hash && Imports(w, r, NextDeathKey(w), noted) && Prunes(noted, maxBlocks, pinned, n)
    ensures Slides(w, hash, maxBlocks, pinned, n, PrunedBy(noted, n))
  {
    assert forall j :: 0 <= j < |w.rows| ==> noted.rows[j].hash == w.rows[j].hash;
    if n > 0 {
      assert noted.rows[n - 1].hash !in pinned;
    }
    assert PrunedBy(noted, n).rows == noted.rows[n..];
  }

  // ---------- First finalizations ----------

  lemma {:induction false} Enumerated<T>(s: set<T>) returns (list: seq<T>)
    ensures Elems(list) == s
  {
    if s == {} {
      list := [];
    } else {
      var x :| x in s;
      var rest := Enumerated(s - {x});
      list := [x] + rest;
      assert Elems(list) == {x} + Elems(rest);
    }
  }

  /** The finalization of a block on the first level, when nothing was finalized before it. */
  lemma FirstFinalize(maxBlocks: nat, m: Moment, winner: BlockOverlay, inserted: seq<(Key, DBValue)>) returns (m': Moment)
    requires maxBlocks >= 1 && m.sys.window == Window(1, [], map[]) && |m.hist.kept| == 1 && m.hist.log == []
    requires CanFinalize(m.sys.forest, winner.hash) && winner in m.sys.forest.levels[0] && Collect(inserted) == winner.values
    ensures FinalizeMoment(maxBlocks, m, winner.hash, m')
  {
    var f, record := m.sys.forest, Noted(winner.hash, ChangeSet(inserted, winner.deleted));
    var noted := Window(1, [DeathRow(winner.hash, DeathJournal(1), Elems(winner.deleted))], map k | k in Elems(winner.deleted) :: 1);
    var dropped := Enumerated(DroppedKeys(f, winner.hash));
    var commit := CommitSet(
      ChangeSet(inserted, []),
      ChangeSet([(LastFinalized, FinalizedAt(winner.hash, f.Front()))] + [(DeathJournal(1), Condemned(record))] + [], dropped));
    assert Imports(m.sys.window, record, NextDeathKey(m.sys.window), noted);
    assert DyingFirst(noted, 0) == {} && PrunedJournals(noted, 0) == {};
    assert FinalizeStep(f, m.sys.window, maxBlocks, m.sys.pinned, winner.hash, winner, noted, 0, commit);
    m' := Moment(
      System(Finalized(f, winner.hash), PrunedBy(noted, 0), m.sys.pinned, Applied(m.sys.data, commit.data), Applied(m.sys.meta, commit.meta)),
      FinalizeHistory(m.hist, RecordOf(winner, commit), 0));
    assert FinalizeTo(m.sys, maxBlocks, winner.hash, winner, noted, 0, commit, m'.sys);
  }

  // ---------- Where the guarantees end ----------

  /** A key condemned twice without being inserted in between: the index forgets the first
      row, so re-inserting the key clears only the second, and pruning the first block
      deletes a key that is alive. */
  lemma DoubleDeletionLosesKey(k: Key, w1: Window, w2: Window, w3: Window, hash: BlockHash)
    requires var w0, gone, back := Window(1, [], map[]), DeathRecord(hash, [], [k]), DeathRecord(hash, [k], []);
             && Imports(w0, gone, DeathJournal(1), w1)
             && Imports(w1, gone, DeathJournal(2), w2)
             && Imports(w2, back, DeathJournal(3), w3)
    ensures k in w3.rows[0].deleted && k !in w3.rows[1].deleted
    ensures !Inverse(w2) && !Proper([DeathRecord(hash, [], [k]), DeathRecord(hash, [], [k])])
  {
    assert k in Elems([k]);
    assert w2.index[k] == 2 && k in w2.rows[0].deleted;
    var gone := DeathRecord(hash, [], [k]);
    var log := [gone, gone];
    assert log[..1] == [gone] && [gone][1..] == [];
    assert k in Dying([gone], 0);
    assert Doomed(log[..1], k);
  }
}
