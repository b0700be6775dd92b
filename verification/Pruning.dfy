/** The pruning window: what each recently finalized block condemned, and where each
    condemned key is listed. A window is specified by the journal records (the log) of
    the blocks it holds. */
module Pruning {
  import opened Primitives
  import opened Commits

  datatype DeathRow = DeathRow(hash: BlockHash, journalKey: MetaKey, deleted: set<Key>)

  /** The contents of a RefWindow object. */
  datatype Window = Window(pending: nat, rows: seq<DeathRow>, index: map<Key, nat>)

  // ---------- What a log means ----------

  /** All keys inserted by the blocks of a log. */
  ghost function Inserts(log: seq<DeathRecord>): set<Key> {
    set i, k | 0 <= i < |log| && k in log[i].inserted :: k
  }

  /** The keys that die with block `i`: deleted by it and inserted by no later block. */
  ghost function Dying(log: seq<DeathRecord>, i: nat): set<Key>
    requires i < |log|
  {
    Elems(log[i].deleted) - Inserts(log[i + 1..])
  }

  ghost predicate Doomed(log: seq<DeathRecord>, k: Key) {
    exists i :: 0 <= i < |log| && k in Dying(log, i)
  }

  /** No block deletes a key that is already condemned, unless it inserts it too. */
  ghost predicate Proper(log: seq<DeathRecord>) {
    forall i, k :: 0 <= i < |log| && k in log[i].deleted && k !in log[i].inserted ==> !Doomed(log[..i], k)
  }

  ghost predicate RowsOf(rows: seq<DeathRow>, pending: nat, log: seq<DeathRecord>) {
    && |rows| == |log|
    && forall i :: 0 <= i < |log| ==> rows[i] == DeathRow(log[i].hash, DeathJournal(pending + i), Dying(log, i))
  }

  /** The death index is the exact inverse of the death rows. */
  ghost predicate Inverse(w: Window) {
    && (forall k :: k in w.index ==> Listed(w, k, w.index[k]))
    && (forall i, k :: 0 <= i < |w.rows| && k in w.rows[i].deleted ==> k in w.index && w.index[k] == w.pending + i)
  }

  ghost predicate Listed(w: Window, k: Key, block: nat) {
    w.pending <= block < w.pending + |w.rows| && k in w.rows[block - w.pending].deleted
  }

  ghost predicate Tracks(w: Window, log: seq<DeathRecord>) {
    RowsOf(w.rows, w.pending, log) && Inverse(w)
  }

  /** Every index entry names a row of the window: what `import` needs in order not to
      index out of bounds. */
  ghost predicate InBounds(w: Window) {
    forall k :: k in w.index ==> w.pending <= w.index[k] < w.pending + |w.rows|
  }

  // ---------- Transitions ----------

  /** Row `row` after the re-inserted keys that the index places on it are taken off. */
  ghost function Reprieved(w: Window, i: nat, inserted: set<Key>): set<Key>
    requires i < |w.rows|
  {
    w.rows[i].deleted - (set k | k in inserted && k in w.index && w.index[k] == w.pending + i)
  }

  ghost predicate Imports(w: Window, r: DeathRecord, journalKey: MetaKey, w': Window) {
    var ins, del := Elems(r.inserted), Elems(r.deleted);
    && w'.pending == w.pending
    && |w'.rows| == |w.rows| + 1
    && (forall i :: 0 <= i < |w.rows| ==> w'.rows[i] == w.rows[i].(deleted := Reprieved(w, i, ins)))
    && w'.rows[|w.rows|] == DeathRow(r.hash, journalKey, del)
    && w'.index.Keys == (w.index.Keys - ins) + del
    && (forall k :: k in w'.index ==> w'.index[k] == if k in del then w.pending + |w.rows| else w.index[k])
  }

  function Pruned(w: Window): Window
    requires w.rows != []
  {
    Window(w.pending + 1, w.rows[1..], w.index - w.rows[0].deleted)
  }

  // ---------- Facts about logs ----------

  lemma DyingAppend(log: seq<DeathRecord>, r: DeathRecord, i: nat)
    requires i < |log|
    ensures Dying(log + [r], i) == Dying(log, i) - Elems(r.inserted)
  {
    var tail := log[i + 1..];
    assert (log + [r])[i + 1..] == tail + [r];
    assert Inserts(tail + [r]) == Inserts(tail) + Elems(r.inserted) by {
      forall k | k in Inserts(tail) ensures k in Inserts(tail + [r]) {
        var j :| 0 <= j < |tail| && k in tail[j].inserted;
        assert (tail + [r])[j] == tail[j];
      }
      forall k | k in r.inserted ensures k in Inserts(tail + [r]) {
        assert (tail + [r])[|tail|] == r;
      }
    }
  }

  lemma DyingTail(log: seq<DeathRecord>, i: nat)
    requires i + 1 < |log|
    ensures Dying(log[1..], i) == Dying(log, i + 1)
  {
    assert log[1..][i + 1..] == log[i + 2..];
  }

  lemma ProperTail(log: seq<DeathRecord>)
    requires log != [] && Proper(log)
    ensures Proper(log[1..])
  {
    var tail := log[1..];
    forall i, k | 0 <= i < |tail| && k in tail[i].deleted && k !in tail[i].inserted
      ensures !Doomed(tail[..i], k)
    {
      var longer := log[..i + 1];
      assert tail[i] == log[i + 1] && longer[1..] == tail[..i];
      if Doomed(tail[..i], k) {
        var j :| 0 <= j < i && k in Dying(tail[..i], j);
        DyingTail(longer, j);
        assert Doomed(longer, k);
      }
    }
  }

  lemma ProperPrefix(log: seq<DeathRecord>, n: nat)
    requires n <= |log| && Proper(log)
    ensures Proper(log[..n])
  {
    assert forall i :: 0 <= i < n ==> log[..n][..i] == log[..i];
  }

  lemma ProperAppend(log: seq<DeathRecord>, r: DeathRecord)
    requires Proper(log)
    requires forall k :: k in r.deleted && k !in r.inserted ==> !Doomed(log, k)
    ensures Proper(log + [r])
  {
    var log' := log + [r];
    assert forall i :: 0 <= i < |log| ==> log'[..i] == log[..i];
    assert log'[..|log|] == log;
  }

  // ---------- The window follows its log ----------

  lemma IndexedIsDoomed(w: Window, log: seq<DeathRecord>, k: Key)
    requires Tracks(w, log)
    ensures k in w.index <==> Doomed(log, k)
  {
    if k in w.index {
      assert Listed(w, k, w.index[k]);
      assert k in Dying(log, w.index[k] - w.pending);
    }
  }

  /** Importing a record keeps the window in step with its log exactly when the record
      deletes no key that is already condemned and not re-inserted by it. */
  lemma ImportTracksIff(w: Window, log: seq<DeathRecord>, r: DeathRecord, w': Window)
    requires Tracks(w, log)
    requires Imports(w, r, DeathJournal(w.pending + |w.rows|), w')
    ensures RowsOf(w'.rows, w'.pending, log + [r])
    ensures Tracks(w', log + [r]) <==> forall k :: k in r.deleted && k !in r.inserted ==> k !in w.index
  {
    var log' := log + [r];
    forall i | 0 <= i < |log| ensures w'.rows[i].deleted == Dying(log', i) {
      DyingAppend(log, r, i);
      forall k | k in w.rows[i].deleted ensures w.index[k] == w.pending + i {}
    }
    assert log'[|log| + 1..] == [];
    assert RowsOf(w'.rows, w'.pending, log');
    if k :| k in r.deleted && k !in r.inserted && k in w.index {
      var b := w.index[k] - w.pending;
      assert Listed(w, k, w.index[k]);
      assert k in w'.rows[b].deleted;
      assert w'.index[k] == w.pending + |w.rows|;
    } else {
      InverseAfterImport(w, r, w');
    }
  }

  lemma InverseAfterImport(w: Window, r: DeathRecord, w': Window)
    requires Inverse(w)
    requires Imports(w, r, DeathJournal(w.pending + |w.rows|), w')
    requires forall k :: k in r.deleted && k !in r.inserted ==> k !in w.index
    ensures Inverse(w')
  {
    forall k | k in w'.index ensures Listed(w', k, w'.index[k]) {
      if k !in r.deleted {
        assert Listed(w, k, w.index[k]);
        assert w'.rows[w.index[k] - w.pending].deleted == Reprieved(w, w.index[k] - w.pending, Elems(r.inserted));
      }
    }
    forall i, k | 0 <= i < |w'.rows| && k in w'.rows[i].deleted
      ensures k in w'.index && w'.index[k] == w'.pending + i
    {
      if i < |w.rows| {
        assert k in w.rows[i].deleted;
      }
    }
  }

  /** Pruning the front block leaves the window of the remaining blocks. */
  lemma PruneTracks(w: Window, log: seq<DeathRecord>)
    requires Tracks(w, log) && log != []
    ensures Tracks(Pruned(w), log[1..])
  {
    var w' := Pruned(w);
    forall i | 0 <= i < |log| - 1 ensures w'.rows[i] == DeathRow(log[1..][i].hash, DeathJournal(w'.pending + i), Dying(log[1..], i)) {
      DyingTail(log, i);
    }
    forall k | k in w'.index ensures Listed(w', k, w'.index[k]) {
      assert Listed(w, k, w.index[k]);
      assert k !in w.rows[0].deleted;
    }
    forall i, k | 0 <= i < |w'.rows| && k in w'.rows[i].deleted
      ensures k in w'.index && w'.index[k] == w'.pending + i
    {
      assert k in w.rows[i + 1].deleted;
    }
  }

  lemma TracksIsUnique(w1: Window, w2: Window, log: seq<DeathRecord>)
    requires Tracks(w1, log) && Tracks(w2, log) && w1.pending == w2.pending
    ensures w1 == w2
  {
    assert w1.rows == w2.rows by {
      forall i | 0 <= i < |log| ensures w1.rows[i] == w2.rows[i] {
      }
    }
    InverseIsUnique(w1, w2);
  }

  /** The rows determine the index. */
  lemma InverseIsUnique(w1: Window, w2: Window)
    requires Inverse(w1) && Inverse(w2) && w1.pending == w2.pending && w1.rows == w2.rows
    ensures w1.index == w2.index
  {
    forall k | k in w1.index ensures k in w2.index && w1.index[k] == w2.index[k] {
      assert Listed(w1, k, w1.index[k]);
      assert k in w2.rows[w1.index[k] - w1.pending].deleted;
    }
    forall k | k in w2.index ensures k in w1.index {
      assert Listed(w2, k, w2.index[k]);
      assert k in w1.rows[w2.index[k] - w2.pending].deleted;
    }
  }

  // ---------- Journaling ----------

  /** The metadata holds the journal of exactly the blocks in the window, and the number
      of the last pruned one. */
  ghost predicate JournaledIn(pending: nat, log: seq<DeathRecord>, meta: Meta) {
    && ReadPending(meta) == Ok(pending)
    && (forall b: nat :: DeathJournal(b) in meta <==> pending <= b < pending + |log|)
    && (forall i :: 0 <= i < |log| ==> meta[DeathJournal(pending + i)] == Condemned(log[i]))
  }

  datatype Error = Decoding

  function ReadPending(meta: Meta): Result<nat, Error> {
    if LastPruned !in meta then Ok(1)
    else match meta[LastPruned]
      case PrunedAt(n) => Ok(n + 1)
      case _ => Err(Decoding)
  }

  /** The window that importing the records one after the other gives. */
  ghost predicate Builds(pending: nat, log: seq<DeathRecord>, w: Window) {
    if log == [] then w == Window(pending, [], map[])
    else
      var last := |log| - 1;
      exists before :: Builds(pending, log[..last], before) && Imports(before, log[last], DeathJournal(pending + last), w)
  }

  lemma BuildsNext(pending: nat, log: seq<DeathRecord>, w: Window, r: DeathRecord, w': Window)
    requires Builds(pending, log, w) && Imports(w, r, DeathJournal(pending + |log|), w')
    ensures Builds(pending, log + [r], w')
  {
    assert (log + [r])[..|log|] == log;
  }

  /** A log in which no key is condemned twice builds the window that tracks it. */
  lemma {:induction false} BuildsTracks(pending: nat, log: seq<DeathRecord>, w: Window)
    requires Builds(pending, log, w) && Proper(log)
    ensures w.pending == pending && Tracks(w, log)
  {
    if log != [] {
      var last := |log| - 1;
      var init, r := log[..last], log[last];
      var before :| Builds(pending, init, before) && Imports(before, r, DeathJournal(pending + last), w);
      ProperPrefix(log, last);
      BuildsTracks(pending, init, before);
      assert log == init + [r];
      ImportTracksIff(before, init, r, w);
      forall k | k in r.deleted && k !in r.inserted ensures k !in before.index {
        IndexedIsDoomed(before, init, k);
      }
    }
  }

  /** A log builds one window only. */
  lemma {:induction false} BuildsIsUnique(pending: nat, log: seq<DeathRecord>, w1: Window, w2: Window)
    requires Builds(pending, log, w1) && Builds(pending, log, w2)
    ensures w1 == w2
  {
    if log != [] {
      var last := |log| - 1;
      var b1 :| Builds(pending, log[..last], b1) && Imports(b1, log[last], DeathJournal(pending + last), w1);
      var b2 :| Builds(pending, log[..last], b2) && Imports(b2, log[last], DeathJournal(pending + last), w2);
      BuildsIsUnique(pending, log[..last], b1, b2);
      ImportsIsUnique(b1, log[last], DeathJournal(pending + last), w1, w2);
    }
  }

  lemma ImportsIsUnique(w: Window, r: DeathRecord, journalKey: MetaKey, w1: Window, w2: Window)
    requires Imports(w, r, journalKey, w1) && Imports(w, r, journalKey, w2)
    ensures w1 == w2
  {
    assert w1.rows == w2.rows;
    assert w1.index == w2.index;
  }

  class RefWindow {
    var deathRows: seq<DeathRow>
    var deathIndex: map<Key, nat>
    var pendingNumber: nat

    ghost function Contents(): Window
      reads this
    {
      Window(pendingNumber, deathRows, deathIndex)
    }

    constructor (pending: nat)
      ensures Contents() == Window(pending, [], map[])
    {
      deathRows, deathIndex, pendingNumber := [], map[], pending;
    }

    /** Rebuilds the window by replaying the journal. */
    static method Recover(meta: Meta) returns (r: Result<RefWindow, Error>)
      ensures r.Ok? ==> fresh(r.value)
      ensures forall pending: nat, log :: JournaledIn(pending, log, meta) ==>
                r.Ok? && r.value.Contents().pending == pending && Builds(pending, log, r.value.Contents())
      ensures forall pending: nat, log :: JournaledIn(pending, log, meta) && Proper(log) ==> r.Ok? && Tracks(r.value.Contents(), log)
    {
      var pending := ReadPending(meta);
      if pending.Err? {
        return Err(Decoding);
      }
      var window := new RefWindow(pending.value);
      var block := pending.value;
      ghost var read: seq<DeathRecord> := [];
      while DeathJournal(block) in meta
        invariant fresh(window) && block == pending.value + |read|
        invariant Replaying(meta, pending.value, read, window.Contents())
        decreases Remaining(meta, block)
      {
        var journalKey := DeathJournal(block);
        assert journalKey in Remaining(meta, block) && journalKey !in Remaining(meta, block + 1);
        JournalIsReadable(meta, block);
        match meta[journalKey] {
          case Condemned(record) =>
            ghost var before := window.Contents();
            window.Import(record.hash, journalKey, record.inserted, record.deleted);
            ReplayStep(meta, pending.value, read, before, record, window.Contents());
            read := read + [record];
          case _ =>
            return Err(Decoding);
        }
        block := block + 1;
      }
      ReplayEnds(meta, pending.value, read, window.Contents());
      r := Ok(window);
    }

    /** The records read so far are the journal's, and the window is built from them. */
    static ghost predicate Replaying(meta: Meta, pending: nat, read: seq<DeathRecord>, w: Window) {
      && w.pending == pending && |w.rows| == |read| && InBounds(w) && Builds(pending, read, w)
      && ReadPending(meta) == Ok(pending)
      && forall i :: 0 <= i < |read| ==> Holds(meta, pending + i, read[i])
    }

    static lemma ReplayStep(meta: Meta, pending: nat, read: seq<DeathRecord>, w: Window, r: DeathRecord, w': Window)
      requires Replaying(meta, pending, read, w) && Holds(meta, pending + |read|, r)
      requires Imports(w, r, DeathJournal(pending + |read|), w') && InBounds(w')
      ensures Replaying(meta, pending, read + [r], w')
    {
      BuildsNext(pending, read, w, r, w');
    }

    static lemma ReplayEnds(meta: Meta, pending: nat, read: seq<DeathRecord>, w: Window)
      requires Replaying(meta, pending, read, w) && DeathJournal(pending + |read|) !in meta
      ensures forall p: nat, log :: JournaledIn(p, log, meta) ==> p == pending && Builds(p, log, w) && (Proper(log) ==> Tracks(w, log))
    {
      forall p: nat, log | JournaledIn(p, log, meta) ensures p == pending && Builds(p, log, w) && (Proper(log) ==> Tracks(w, log)) {
        ReadIsLog(meta, p, log, read);
        if Proper(log) {
          BuildsTracks(pending, log, w);
        }
      }
    }

    static ghost predicate Holds(meta: Meta, block: nat, r: DeathRecord) {
      DeathJournal(block) in meta && meta[DeathJournal(block)] == Condemned(r)
    }

    static lemma JournalIsReadable(meta: Meta, block: nat)
      requires DeathJournal(block) in meta
      ensures forall p: nat, log :: JournaledIn(p, log, meta) ==> meta[DeathJournal(block)].Condemned?
    {
      forall p: nat, log | JournaledIn(p, log, meta) ensures meta[DeathJournal(block)].Condemned? {
        assert meta[DeathJournal(p + (block - p))] == Condemned(log[block - p]);
      }
    }

    static lemma ReadIsLog(meta: Meta, p: nat, log: seq<DeathRecord>, read: seq<DeathRecord>)
      requires JournaledIn(p, log, meta) && DeathJournal(p + |read|) !in meta
      requires forall i :: 0 <= i < |read| ==> Holds(meta, p + i, read[i])
      ensures log == read
    {
      if read != [] {
        assert Holds(meta, p + (|read| - 1), read[|read| - 1]);
      }
      assert forall i :: 0 <= i < |read| ==> Holds(meta, p + i, read[i]);
    }

    static ghost function Remaining(meta: Meta, block: nat): set<MetaKey> {
      set k | k in meta && k.DeathJournal? && k.block >= block
    }

    method Import(hash: BlockHash, journalKey: MetaKey, inserted: seq<Key>, deleted: seq<Key>)
      requires InBounds(Contents())
      modifies this
      ensures Imports(old(Contents()), DeathRecord(hash, inserted, deleted), journalKey, Contents())
      ensures InBounds(Contents())
    {
      ghost var w := Contents();
      for i := 0 to |inserted|
        invariant pendingNumber == w.pending && |deathRows| == |w.rows|
        invariant deathIndex == w.index - Elems(inserted[..i])
        invariant forall j :: 0 <= j < |w.rows| ==>
                    deathRows[j] == w.rows[j].(deleted := Reprieved(w, j, Elems(inserted[..i])))
      {
        var k := inserted[i];
        assert Elems(inserted[..i + 1]) == Elems(inserted[..i]) + {k};
        if k in deathIndex {
          var row := deathIndex[k] - pendingNumber;
          deathIndex := deathIndex - {k};
          deathRows := deathRows[row := deathRows[row].(deleted := deathRows[row].deleted - {k})];
        }
      }
      assert inserted[..|inserted|] == inserted;
      var importedBlock := pendingNumber + |deathRows|;
      ghost var cleared, reprieved := deathIndex, deathRows;
      for i := 0 to |deleted|
        invariant pendingNumber == w.pending && deathRows == reprieved
        invariant deathIndex.Keys == cleared.Keys + Elems(deleted[..i])
        invariant forall k :: k in deathIndex ==> deathIndex[k] == if k in deleted[..i] then importedBlock else cleared[k]
      {
        assert deleted[..i + 1] == deleted[..i] + [deleted[i]];
        deathIndex := deathIndex[deleted[i] := importedBlock];
      }
      assert deleted[..|deleted|] == deleted;
      deathRows := deathRows + [DeathRow(hash, journalKey, Elems(deleted))];
    }

    /** Drops the front block and adds its dying keys to the commit. */
    method PruneOne(commit: CommitSet) returns (c: CommitSet)
      requires deathRows != []
      modifies this
      ensures Contents() == Pruned(old(Contents()))
      ensures c.data.inserted == commit.data.inserted
      ensures Elems(c.data.deleted) == Elems(commit.data.deleted) + old(deathRows[0].deleted)
      ensures c.meta.inserted == commit.meta.inserted + [(LastPruned, PrunedAt(old(pendingNumber)))]
      ensures c.meta.deleted == commit.meta.deleted + [old(deathRows[0].journalKey)]
    {
      var pruned := deathRows[0];
      deathRows := deathRows[1..];
      deathIndex := deathIndex - pruned.deleted;
      var dying := DrainSet(pruned.deleted);
      ElemsAppend(commit.data.deleted, dying);
      c := CommitSet(
        ChangeSet(commit.data.inserted, commit.data.deleted + dying),
        ChangeSet(commit.meta.inserted + [(LastPruned, PrunedAt(pendingNumber))], commit.meta.deleted + [pruned.journalKey]));
      pendingNumber := pendingNumber + 1;
    }

    /** Moves a finalized block's deletions from the commit into the window, and journals them. */
    method NoteFinalized(hash: BlockHash, commit: CommitSet) returns (c: CommitSet)
      requires InBounds(Contents())
      modifies this
      ensures Imports(old(Contents()), Noted(hash, commit.data), DeathJournal(old(pendingNumber + |deathRows|)), Contents())
      ensures InBounds(Contents())
      ensures c.data == ChangeSet(commit.data.inserted, [])
      ensures c.meta == ChangeSet(
                commit.meta.inserted + [(DeathJournal(old(pendingNumber + |deathRows|)), Condemned(Noted(hash, commit.data)))],
                commit.meta.deleted)
    {
      var record := Noted(hash, commit.data);
      var journalKey := DeathJournal(pendingNumber + |deathRows|);
      c := CommitSet(
        ChangeSet(commit.data.inserted, []),
        ChangeSet(commit.meta.inserted + [(journalKey, Condemned(record))], commit.meta.deleted));
      Import(hash, journalKey, record.inserted, record.deleted);
    }
  }

  /** The journal record of a finalized block's changes. */
  function Noted(hash: BlockHash, c: ChangeSet<Key, DBValue>): DeathRecord {
    DeathRecord(hash, seq(|c.inserted|, i requires 0 <= i < |c.inserted| => c.inserted[i].0), c.deleted)
  }
}
