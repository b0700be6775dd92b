/** The state database object and its backing store, driven through whole runs: the objects go
    through the moments that the run theorems speak of. */
module Drive {
  import opened Primitives
  import opened Commits
  import opened Forests
  import opened Unfinalized
  import FJ = ForestJournal
  import FR = ForestRecovery
  import opened Pruning
  import opened StateDb
  import opened StateRun
  import opened StateTheorems

  /** What the run's invariant says about the two windows is what their methods ask for. */
  lemma InvIsEnough(s: System, h: History, content: Key -> DBValue)
    requires Inv(s, h, content)
    ensures Distinct(s.forest.levels) && s.forest.parents.Keys == AllHashes(s.forest.levels) && InBounds(s.window)
  {
    forall k | k in s.window.index ensures s.window.pending <= s.window.index[k] < s.window.pending + |s.window.rows| {
      assert Listed(s.window, k, s.window.index[k]);
    }
  }

  lemma FinalizeIsMoment(maxBlocks: nat, content: Key -> DBValue, moments: seq<Moment>, events: seq<Event>, hash: BlockHash,
                         winner: BlockOverlay, noted: Window, n: nat, commit: CommitSet) returns (m': Moment)
    requires Run(maxBlocks, content, moments, events)
    requires var s := moments[|events|].sys; FinalizeStep(s.forest, s.window, maxBlocks, s.pinned, hash, winner, noted, n, commit)
    ensures Step(maxBlocks, content, moments[|events|], Event.Finalize(hash), m')
    ensures var s := moments[|events|].sys;
            m'.sys == System(Finalized(s.forest, hash), PrunedBy(noted, n), s.pinned, Applied(s.data, commit.data), Applied(s.meta, commit.meta))
  {
    var m := moments[|events|];
    RunKeepsInv(maxBlocks, content, moments, events, |events|);
    assert Started(m.sys, m.hist);
    assert |m.hist.kept| == |m.hist.log| + 1 && n <= |m.hist.log| + 1;
    m' := Moment(
      System(Finalized(m.sys.forest, hash), PrunedBy(noted, n), m.sys.pinned, Applied(m.sys.data, commit.data), Applied(m.sys.meta, commit.meta)),
      FinalizeHistory(m.hist, RecordOf(winner, commit), n));
    assert FinalizeTo(m.sys, maxBlocks, hash, winner, noted, n, commit, m'.sys);
  }

  /** Some retained or unfinalized block has the key in its state. */
  ghost predicate Alive(m: Moment, key: Key) {
    || (exists n :: 0 <= n < |m.hist.kept| && Has(m.hist, m.hist.kept[n], key))
    || (exists i, j :: 0 <= i < |m.sys.forest.levels| && 0 <= j < |m.sys.forest.levels[i]| && Has(m.hist, m.sys.forest.levels[i][j].hash, key))
  }

  ghost predicate Has(h: History, block: BlockHash, key: Key) {
    block in h.states && key in h.states[block]
  }

  lemma AliveIsReadable(maxBlocks: nat, content: Key -> DBValue, moments: seq<Moment>, events: seq<Event>, key: Key)
    requires Run(maxBlocks, content, moments, events)
    ensures Alive(moments[|events|], key) ==> Readable(moments[|events|].sys, key)
    ensures var s := moments[|events|].sys;
            (key in s.data ==> s.data[key] == content(key)) && forall v :: OverlaidAs(s.forest.levels, key, v) ==> v == content(key)
  {
    var m := moments[|events|];
    RunKeepsInv(maxBlocks, content, moments, events, |events|);
    if m.sys.forest.lastFinalized.Some? {
      EveryRunIsSafe(maxBlocks, content, moments, events, |events|);
    }
  }

  class Driver {
    ghost const content: Key -> DBValue
    const maxBlocks: nat
    const store: TestDb
    var db: StateDbSync
    ghost var moments: seq<Moment>
    ghost var events: seq<Event>

    /** The present moment is the last of a run. */
    ghost predicate Valid()
      reads this, store, db, db.unfinalized, db.pruning
    {
      && db.mode == Constrained(Some(maxBlocks)) && db.pruning != null
      && Run(maxBlocks, content, moments, events)
      && moments[|events|].sys == Now()
    }

    ghost function Now(): System
      requires db.pruning != null
      reads this, store, db, db.unfinalized, db.pruning
    {
      System(db.unfinalized.Contents(), db.pruning.Contents(), db.pinned, store.data, store.meta)
    }

    ghost function Last(): Moment
      requires |moments| == |events| + 1
      reads this
    {
      moments[|events|]
    }

    /** A database over a store without metadata. */
    constructor (ghost content: Key -> DBValue, maxBlocks: nat, store: TestDb)
      requires store.meta == map[] && forall k :: k in store.data ==> store.data[k] == content(k)
      ensures Valid() && this.content == content && this.maxBlocks == maxBlocks && this.store == store
      ensures events == [] && fresh(db) && fresh(db.unfinalized) && fresh(db.pruning)
    {
      var unfinalized := new UnfinalizedOverlay(EMPTY_FOREST);
      var pruning := new RefWindow(1);
      var db := new StateDbSync(Constrained(Some(maxBlocks)), unfinalized, pruning);
      this.content, this.maxBlocks, this.store, this.db := content, maxBlocks, store, db;
      this.events := [];
      this.moments := [Moment(System(EMPTY_FOREST, Window(1, [], map[]), {}, store.data, map[]), History(map[], [], []))];
    }

    /** Note the step that the objects have just taken. */
    ghost method Note(e: Event, m: Moment)
      requires db.mode == Constrained(Some(maxBlocks)) && db.pruning != null
      requires Run(maxBlocks, content, moments, events)
      requires Step(maxBlocks, content, Last(), e, m) && m.sys == Now()
      modifies this`moments, this`events
      ensures Valid() && events == old(events) + [e] && moments == old(moments) + [m]
    {
      RunSnoc(maxBlocks, content, moments, events, e, m);
      moments, events := moments + [m], events + [e];
    }

    method Genesis(hash: BlockHash, parent: BlockHash, changes: ChangeSet<Key, DBValue>)
      requires Valid() && Now().forest.lastFinalized.None?
      requires forall k :: k in Collect(changes.inserted) ==> Collect(changes.inserted)[k] == content(k)
      modifies this, store, db.unfinalized
      ensures Valid() && db == old(db) && events == old(events) + [Event.Genesis(changes)] && old(moments) <= moments
    {
      ghost var m := Last();
      var commit := db.InsertBlock(hash, 0, parent, changes);
      store.Commit(commit);
      NoMeta(m.sys.meta);
      Note(Event.Genesis(changes), Moment(Now(), m.hist));
    }

    static lemma NoMeta(meta: Meta)
      ensures Applied(meta, EMPTY_COMMIT.meta) == meta
    {
      assert Collect<MetaKey, MetaValue>([]) == map[];
    }

    method Insert(record: BlockRecord, number: nat)
      requires Valid() && InsertAllowed(Now(), Last().hist, content, record, number)
      modifies this, store, db.unfinalized
      ensures Valid() && db == old(db) && events == old(events) + [Event.Insert(record, number)] && old(moments) <= moments
    {
      ghost var m := Last();
      var commit := db.InsertBlock(record.hash, number, record.parent, ChangeSet(record.inserted, record.deleted));
      store.Commit(commit);
      Note(Event.Insert(record, number), Moment(Now(), InsertHistory(m.sys, m.hist, record)));
    }

    /** At every moment of a run the database object is as its methods want it. */
    lemma DbIsValid()
      requires Valid()
      ensures db.Valid()
    {
      RunKeepsInv(maxBlocks, content, moments, events, |events|);
      InvIsEnough(Last().sys, Last().hist, content);
    }

    method Finalize(hash: BlockHash)
      requires Valid() && CanFinalize(Now().forest, hash)
      modifies this, store, db.unfinalized, db.pruning
      ensures Valid() && db == old(db) && events == old(events) + [Event.Finalize(hash)] && old(moments) <= moments
    {
      ghost var m := Last();
      DbIsValid();
      var commit := db.FinalizeBlock(hash);
      ghost var winner, noted, n: nat :|
        && FinalizeStep(m.sys.forest, m.sys.window, maxBlocks, m.sys.pinned, hash, winner, noted, n, commit)
        && db.pruning.Contents() == PrunedBy(noted, n);
      store.Commit(commit);
      ghost var m' := FinalizeIsMoment(maxBlocks, content, moments, events, hash, winner, noted, n, commit);
      Note(Event.Finalize(hash), m');
    }

    method Pin(hash: BlockHash)
      requires Valid()
      modifies this, db
      ensures Valid() && db == old(db) && events == old(events) + [Event.Pin(hash)] && old(moments) <= moments
    {
      ghost var m := Last();
      db.Pin(hash);
      Note(Event.Pin(hash), m.(sys := Now()));
    }

    method Unpin(hash: BlockHash)
      requires Valid()
      modifies this, db
      ensures Valid() && db == old(db) && events == old(events) + [Event.Unpin(hash)] && old(moments) <= moments
    {
      ghost var m := Last();
      db.Unpin(hash);
      Note(Event.Unpin(hash), m.(sys := Now()));
    }

    /** Every key of every retained or unfinalized block can be read, and reads give its value. */
    method Get(key: Key) returns (r: Option<DBValue>)
      requires Valid()
      ensures Alive(Last(), key) ==> r.Some?
      ensures r.Some? ==> r.value == content(key)
    {
      AliveIsReadable(maxBlocks, content, moments, events, key);
      r := db.Get(key, store.data);
      if Overlaid(db.unfinalized.levels, key) {
        assert OverlaidAs(Last().sys.forest.levels, key, r.value);
      }
    }

    /** Drop the database and open it again over the same store. */
    method Restart() returns (ok: bool)
      requires Valid()
      modifies this
      ensures ok ==> Ok(db.unfinalized.Contents()) == FR.Recovered(store.meta)
      ensures FJ.Dense(old(Now().forest)) ==>
                ok && Valid() && fresh(db) && fresh(db.unfinalized) && fresh(db.pruning)
                && events == old(events) + [Event.Restart] && old(moments) <= moments
    {
      ghost var m := Last();
      RunKeepsInv(maxBlocks, content, moments, events, |events|);
      if FJ.Dense(m.sys.forest) {
        FR.RecoveryIsExactIffDense(m.sys.forest, m.sys.meta);
      }
      var unfinalized := FR.Recover(store.meta);
      if unfinalized.Err? {
        return false;
      }
      var pruning := RefWindow.Recover(store.meta);
      if pruning.Err? {
        return false;
      }
      db := new StateDbSync(Constrained(Some(maxBlocks)), unfinalized.value, pruning.value);
      ok := true;
      if FJ.Dense(m.sys.forest) {
        assert Replayed(m.sys.meta, pruning.value.Contents());
        Note(Event.Restart, Moment(Now(), m.hist));
      }
    }
  }
}
