/** Rebuilding the forest from its journal on startup. */
module ForestRecovery {
  import opened Primitives
  import opened Commits
  import opened Forests
  import opened Unfinalized
  import opened ForestJournal

  // ---------- What startup reads ----------

  ghost function EntriesFrom(meta: Meta, block: nat, index: nat): set<MetaKey> {
    set k | k in meta && k.BlockJournal? && k.block == block && k.index >= index
  }

  ghost function EntriesAbove(meta: Meta, block: nat): set<MetaKey> {
    set k | k in meta && k.BlockJournal? && k.block >= block
  }

  /** What was read before, in front of what is read next. */
  ghost function Prefixed<T>(read: seq<T>, rest: Result<seq<T>, Error>): Result<seq<T>, Error> {
    match rest
    case Ok(s) => Ok(read + s)
    case Err(e) => Err(e)
  }

  lemma PrefixedStep<T>(read: seq<T>, x: T, rest: Result<seq<T>, Error>)
    ensures Prefixed(read, Prefixed([x], rest)) == Prefixed(read + [x], rest)
  {
    if rest.Ok? {
      assert read + ([x] + rest.value) == read + [x] + rest.value;
    }
  }

  lemma PrefixedNothing<T>(rest: Result<seq<T>, Error>)
    ensures Prefixed([], rest) == rest
  {
    if rest.Ok? {
      assert [] + rest.value == rest.value;
    }
  }

  /** The records of one level from `index` on, up to the first index without an entry. */
  ghost function ReadLevel(meta: Meta, block: nat, index: nat): Result<seq<BlockRecord>, Error>
    decreases EntriesFrom(meta, block, index)
  {
    var k := BlockJournal(block, index);
    if k !in meta then Ok([])
    else if !meta[k].Journaled? then Err(Decoding)
    else
      assert k in EntriesFrom(meta, block, index) && k !in EntriesFrom(meta, block, index + 1);
      Prefixed([meta[k].block], ReadLevel(meta, block, index + 1))
  }

  /** The levels from `block` on, up to the first level without records. */
  ghost function ReadLevels(meta: Meta, block: nat): Result<seq<seq<BlockRecord>>, Error>
    decreases EntriesAbove(meta, block)
  {
    match ReadLevel(meta, block, 0)
    case Err(e) => Err(e)
    case Ok(level) =>
      if level == [] then Ok([])
      else
        assert BlockJournal(block, 0) in EntriesAbove(meta, block) && BlockJournal(block, 0) !in EntriesAbove(meta, block + 1);
        Prefixed([level], ReadLevels(meta, block + 1))
  }

  ghost function LevelOf(records: seq<BlockRecord>, block: nat): Level {
    seq(|records|, j requires 0 <= j < |records| => OverlayOf(records[j], BlockJournal(block, j)))
  }

  ghost function LevelsOf(levels: seq<seq<BlockRecord>>, block: nat): seq<Level> {
    seq(|levels|, i requires 0 <= i < |levels| => LevelOf(levels[i], block + i))
  }

  /** The parent links of the records, later records winning. */
  ghost function Links(parents: Parents, records: seq<BlockRecord>): Parents {
    if records == [] then parents
    else
      var last := |records| - 1;
      Links(parents, records[..last])[records[last].hash := records[last].parent]
  }

  ghost function AllLinks(levels: seq<seq<BlockRecord>>): Parents {
    if levels == [] then map[] else Links(AllLinks(levels[..|levels| - 1]), levels[|levels| - 1])
  }

  ghost function Recovered(meta: Meta): Result<Forest, Error> {
    if LastFinalized !in meta then Ok(EMPTY_FOREST)
    else match meta[LastFinalized]
      case FinalizedAt(hash, number) =>
        (match ReadLevels(meta, number + 1)
         case Ok(levels) => Ok(Forest(Some((hash, number)), LevelsOf(levels, number + 1), AllLinks(levels)))
         case Err(e) => Err(e))
      case _ => Err(Decoding)
  }

  /** The forest without the empty levels that discarding leaves at its end. */
  ghost function Trimmed(levels: seq<Level>): seq<Level> {
    if levels == [] || levels[0] == [] then [] else [levels[0]] + Trimmed(levels[1..])
  }

  ghost function Trim(f: Forest): Forest {
    f.(levels := Trimmed(f.levels))
  }

  // ---------- The method ----------

  /** Reads last-finalized and the journal, level by level. */
  method Recover(meta: Meta) returns (r: Result<UnfinalizedOverlay, Error>)
    ensures r.Ok? ==> fresh(r.value)
    ensures r.Ok? <==> Recovered(meta).Ok?
    ensures r.Ok? ==> Ok(r.value.Contents()) == Recovered(meta)
    ensures r.Err? ==> Err(r.error) == Recovered(meta)
  {
    if LastFinalized !in meta {
      var empty := new UnfinalizedOverlay(EMPTY_FOREST);
      return Ok(empty);
    }
    match meta[LastFinalized] {
      case FinalizedAt(hash, number) =>
        var levels, parents := ReadAllLevels(meta, number + 1);
        if levels.Err? {
          return Err(levels.error);
        }
        var overlay := new UnfinalizedOverlay(Forest(Some((hash, number)), levels.value, parents));
        return Ok(overlay);
      case _ =>
        return Err(Decoding);
    }
  }

  method ReadAllLevels(meta: Meta, first: nat) returns (r: Result<seq<Level>, Error>, parents: Parents)
    ensures r.Ok? <==> ReadLevels(meta, first).Ok?
    ensures r.Ok? ==> var levels := ReadLevels(meta, first).value; r.value == LevelsOf(levels, first) && parents == AllLinks(levels)
    ensures r.Err? ==> Err(r.error) == ReadLevels(meta, first)
  {
    var block := first;
    var levels: seq<Level> := [];
    parents := map[];
    ghost var read: seq<seq<BlockRecord>> := [];
    PrefixedNothing(ReadLevels(meta, first));
    while true
      invariant block == first + |read|
      invariant levels == LevelsOf(read, first) && parents == AllLinks(read)
      invariant ReadLevels(meta, first) == Prefixed(read, ReadLevels(meta, block))
      decreases EntriesAbove(meta, block)
    {
      var level, parents' := ReadOneLevel(meta, block, parents);
      if level.Err? {
        return Err(level.error), parents;
      }
      if level.value == [] {
        break;
      }
      ghost var records := ReadLevel(meta, block, 0).value;
      assert BlockJournal(block, 0) in EntriesAbove(meta, block) && BlockJournal(block, 0) !in EntriesAbove(meta, block + 1);
      assert (read + [records])[..|read|] == read;
      levels := levels + [level.value];
      parents := parents';
      PrefixedStep(read, records, ReadLevels(meta, block + 1));
      read := read + [records];
      block := block + 1;
    }
    assert read + [] == read;
    r := Ok(levels);
  }

  method ReadOneLevel(meta: Meta, block: nat, parents: Parents) returns (r: Result<Level, Error>, parents': Parents)
    ensures r.Ok? <==> ReadLevel(meta, block, 0).Ok?
    ensures r.Ok? ==> var records := ReadLevel(meta, block, 0).value; r.value == LevelOf(records, block) && parents' == Links(parents, records)
    ensures r.Err? ==> Err(r.error) == ReadLevel(meta, block, 0)
  {
    var level: Level := [];
    parents' := parents;
    var index := 0;
    ghost var read: seq<BlockRecord> := [];
    PrefixedNothing(ReadLevel(meta, block, 0));
    while BlockJournal(block, index) in meta
      invariant index == |read|
      invariant level == LevelOf(read, block) && parents' == Links(parents, read)
      invariant ReadLevel(meta, block, 0) == Prefixed(read, ReadLevel(meta, block, index))
      decreases EntriesFrom(meta, block, index)
    {
      var k := BlockJournal(block, index);
      assert k in EntriesFrom(meta, block, index) && k !in EntriesFrom(meta, block, index + 1);
      match meta[k] {
        case Journaled(record) =>
          level := level + [BlockOverlay(record.hash, k, Collect(record.inserted), record.deleted)];
          parents' := parents'[record.hash := record.parent];
          assert (read + [record])[..|read|] == read;
          PrefixedStep(read, record, ReadLevel(meta, block, index + 1));
          read := read + [record];
        case _ =>
          return Err(Decoding), parents';
      }
      index := index + 1;
    }
    assert read + [] == read;
    r := Ok(level);
  }

  // ---------- Exactly when recovery is faithful ----------

  ghost predicate Faithful(f: Forest, meta: Meta) {
    f.lastFinalized.Some? && Dense(f) && JournaledIn(f, meta)
  }

  lemma EntryIsRecord(f: Forest, meta: Meta, i: nat, j: nat)
    requires Faithful(f, meta) && i < |f.levels| && j < |f.levels[i]|
    ensures BlockJournal(f.Front() + i, j) in meta
    ensures IsRecordOf(meta[BlockJournal(f.Front() + i, j)], f.levels[i][j], f.parents)
  {
    assert f.levels[i][j].journalKey == BlockJournal(f.Front() + i, j);
    assert RecordedAt(f.levels[i][j], j, f.parents, meta);
  }

  lemma NoEntryPastTheEnd(f: Forest, meta: Meta, i: nat)
    requires Faithful(f, meta) && i <= |f.levels|
    ensures BlockJournal(f.Front() + i, if i < |f.levels| then |f.levels[i]| else 0) !in meta
  {
    var k := BlockJournal(f.Front() + i, if i < |f.levels| then |f.levels[i]| else 0);
    assert !OwnedBy(f.levels, k) by {
      assert forall m, j :: 0 <= m < |f.levels| && 0 <= j < |f.levels[m]| ==> f.levels[m][j].journalKey == BlockJournal(f.Front() + m, j);
    }
  }

  /** The record journaled at a position. */
  ghost function RecordAt(f: Forest, meta: Meta, i: nat, j: nat): BlockRecord
    requires Faithful(f, meta) && i < |f.levels| && j < |f.levels[i]|
  {
    EntryIsRecord(f, meta, i, j);
    meta[BlockJournal(f.Front() + i, j)].block
  }

  ghost function RecordsAt(f: Forest, meta: Meta, i: nat): seq<BlockRecord>
    requires Faithful(f, meta) && i < |f.levels|
  {
    seq(|f.levels[i]|, j requires 0 <= j < |f.levels[i]| => RecordAt(f, meta, i, j))
  }

  ghost function Stack(f: Forest, meta: Meta, i: nat): seq<seq<BlockRecord>>
    requires Faithful(f, meta) && i <= |f.levels|
    decreases |f.levels| - i
  {
    if i == |f.levels| || f.levels[i] == [] then [] else [RecordsAt(f, meta, i)] + Stack(f, meta, i + 1)
  }

  lemma {:induction false} LevelIsRead(f: Forest, meta: Meta, i: nat, j: nat)
    requires Faithful(f, meta) && i < |f.levels| && j <= |f.levels[i]|
    ensures ReadLevel(meta, f.Front() + i, j) == Ok(RecordsAt(f, meta, i)[j..])
    decreases |f.levels[i]| - j
  {
    if j == |f.levels[i]| {
      NoEntryPastTheEnd(f, meta, i);
      assert RecordsAt(f, meta, i)[j..] == [];
    } else {
      EntryIsRecord(f, meta, i, j);
      LevelIsRead(f, meta, i, j + 1);
      assert RecordsAt(f, meta, i)[j..] == [RecordAt(f, meta, i, j)] + RecordsAt(f, meta, i)[j + 1..];
    }
  }

  lemma LevelOfRecords(f: Forest, meta: Meta, i: nat)
    requires Faithful(f, meta) && i < |f.levels|
    ensures LevelOf(RecordsAt(f, meta, i), f.Front() + i) == f.levels[i]
  {
    forall j | 0 <= j < |f.levels[i]|
      ensures OverlayOf(RecordAt(f, meta, i, j), BlockJournal(f.Front() + i, j)) == f.levels[i][j]
    {
      EntryIsRecord(f, meta, i, j);
      assert f.levels[i][j].journalKey == BlockJournal(f.Front() + i, j);
    }
  }

  lemma {:induction false} LevelsAreRead(f: Forest, meta: Meta, i: nat)
    requires Faithful(f, meta) && i <= |f.levels|
    ensures ReadLevels(meta, f.Front() + i) == Ok(Stack(f, meta, i))
    ensures LevelsOf(Stack(f, meta, i), f.Front() + i) == Trimmed(f.levels[i..])
    decreases |f.levels| - i
  {
    if i == |f.levels| {
      NoEntryPastTheEnd(f, meta, i);
    } else {
      LevelIsRead(f, meta, i, 0);
      assert RecordsAt(f, meta, i)[0..] == RecordsAt(f, meta, i);
      if f.levels[i] != [] {
        LevelsAreRead(f, meta, i + 1);
        LevelOfRecords(f, meta, i);
        assert f.levels[i..][1..] == f.levels[i + 1..];
      }
    }
  }

  /** Links of records that agree with a parent map are part of that map. */
  ghost predicate Within(part: Parents, whole: Parents) {
    part.Keys <= whole.Keys && forall h :: h in part ==> part[h] == whole[h]
  }

  lemma {:induction false} LinksWithin(parents: Parents, records: seq<BlockRecord>, whole: Parents)
    requires Within(parents, whole)
    requires forall j :: 0 <= j < |records| ==> records[j].hash in whole && whole[records[j].hash] == records[j].parent
    ensures Within(Links(parents, records), whole)
    ensures Links(parents, records).Keys == parents.Keys + (set j | 0 <= j < |records| :: records[j].hash)
  {
    if records != [] {
      var last := |records| - 1;
      LinksWithin(parents, records[..last], whole);
      assert (set j | 0 <= j < |records| :: records[j].hash) == (set j | 0 <= j < last :: records[..last][j].hash) + {records[last].hash};
    }
  }

  lemma LevelLinks(f: Forest, meta: Meta, i: nat, parents: Parents)
    requires Faithful(f, meta) && i < |f.levels| && Within(parents, f.parents)
    ensures Within(Links(parents, RecordsAt(f, meta, i)), f.parents)
    ensures Links(parents, RecordsAt(f, meta, i)).Keys == parents.Keys + Hashes(f.levels[i])
  {
    var records := RecordsAt(f, meta, i);
    forall j | 0 <= j < |records|
      ensures records[j].hash == f.levels[i][j].hash && records[j].hash in f.parents && f.parents[records[j].hash] == records[j].parent
    {
      EntryIsRecord(f, meta, i, j);
    }
    LinksWithin(parents, records, f.parents);
    assert (set j | 0 <= j < |records| :: records[j].hash) == Hashes(f.levels[i]);
  }

  /** Linking the levels in order gives the parents of the blocks on them. */
  lemma {:induction false} StackLinks(f: Forest, meta: Meta, n: nat)
    requires Faithful(f, meta) && n <= |Stack(f, meta, 0)|
    ensures |Stack(f, meta, 0)| <= |f.levels|
    ensures Within(AllLinks(Stack(f, meta, 0)[..n]), f.parents)
    ensures AllLinks(Stack(f, meta, 0)[..n]).Keys == AllHashes(f.levels[..n])
  {
    var stack := Stack(f, meta, 0);
    StackShape(f, meta, 0);
    if n > 0 {
      StackLinks(f, meta, n - 1);
      assert stack[..n][..n - 1] == stack[..n - 1];
      LevelLinks(f, meta, n - 1, AllLinks(stack[..n - 1]));
      assert f.levels[..n] == f.levels[..n - 1] + [f.levels[n - 1]];
      AllHashesAppend(f.levels[..n - 1], f.levels[n - 1]);
    }
  }

  lemma {:induction false} StackShape(f: Forest, meta: Meta, i: nat)
    requires Faithful(f, meta) && i <= |f.levels|
    ensures i + |Stack(f, meta, i)| <= |f.levels|
    ensures forall m :: 0 <= m < |Stack(f, meta, i)| ==> Stack(f, meta, i)[m] == RecordsAt(f, meta, i + m)
    ensures i + |Stack(f, meta, i)| < |f.levels| ==> f.levels[i + |Stack(f, meta, i)|] == []
    decreases |f.levels| - i
  {
    if i < |f.levels| && f.levels[i] != [] {
      StackShape(f, meta, i + 1);
    }
  }

  lemma {:induction false} AllHashesAppend(levels: seq<Level>, level: Level)
    ensures AllHashes(levels + [level]) == AllHashes(levels) + Hashes(level)
  {
    if levels == [] {
      assert (levels + [level])[1..] == [];
    } else {
      AllHashesAppend(levels[1..], level);
      assert (levels + [level])[1..] == levels[1..] + [level];
    }
  }

  /** Below an empty level there are no blocks. */
  lemma {:induction false} NothingBelowEmpty(levels: seq<Level>, parents: Parents, roots: set<BlockHash>, n: nat)
    requires Rooted(levels, parents, roots) && n < |levels| && levels[n] == []
    ensures AllHashes(levels) == AllHashes(levels[..n])
  {
    if n == 0 {
      assert Hashes(levels[0]) == {};
      NoRootsNoBlocks(levels[1..], parents);
    } else {
      NothingBelowEmpty(levels[1..], parents, Hashes(levels[0]), n - 1);
      assert levels[..n][1..] == levels[1..][..n - 1];
    }
  }

  lemma {:induction false} NoRootsNoBlocks(levels: seq<Level>, parents: Parents)
    requires Rooted(levels, parents, {})
    ensures AllHashes(levels) == {}
  {
    if levels != [] {
      assert Hashes(levels[0]) == {};
      NoRootsNoBlocks(levels[1..], parents);
    }
  }

  lemma StackLinksEverything(f: Forest, meta: Meta)
    requires Faithful(f, meta) && f.parents.Keys == AllHashes(f.levels)
    requires Rooted(f.levels, f.parents, {f.lastFinalized.value.0})
    ensures AllLinks(Stack(f, meta, 0)) == f.parents
  {
    var stack := Stack(f, meta, 0);
    StackLinks(f, meta, |stack|);
    assert stack[..|stack|] == stack;
    StackShape(f, meta, 0);
    if |stack| < |f.levels| {
      NothingBelowEmpty(f.levels, f.parents, {f.lastFinalized.value.0}, |stack|);
    } else {
      assert f.levels[..|stack|] == f.levels;
    }
  }

  lemma RecoveryOfDense(f: Forest, meta: Meta)
    requires Valid(f) && Faithful(f, meta)
    ensures Recovered(meta) == Ok(Trim(f))
  {
    LevelsAreRead(f, meta, 0);
    assert f.levels[0..] == f.levels;
    StackLinksEverything(f, meta);
  }

  lemma RecoveredIsDense(meta: Meta)
    requires Recovered(meta).Ok?
    ensures Dense(Recovered(meta).value)
  {
  }

  lemma {:induction false} TrimDense(levels: seq<Level>, i: nat, j: nat, parents: Parents, roots: set<BlockHash>)
    requires Rooted(levels, parents, roots) && i < |levels| && j < |levels[i]|
    ensures i < |Trimmed(levels)| && Trimmed(levels)[i] == levels[i]
  {
    if levels[0] == [] {
      NothingBelowEmpty(levels, parents, roots, 0);
      HashIsThere(levels, i, levels[i][j]);
    } else if i > 0 {
      TrimDense(levels[1..], i - 1, j, parents, Hashes(levels[0]));
    }
  }

  /** Startup rebuilds the forest (without trailing empty levels) exactly when the journal
      indices on every level are 0, 1, 2, ...; once a discarded block has left a gap before
      a block that stayed, it does not. */
  lemma RecoveryIsExactIffDense(f: Forest, meta: Meta)
    requires Valid(f) && JournaledIn(f, meta)
    ensures Recovered(meta) == Ok(Trim(f)) <==> Dense(f)
  {
    if f.lastFinalized.Some? {
      if Dense(f) {
        RecoveryOfDense(f, meta);
      }
      if Recovered(meta) == Ok(Trim(f)) {
        RecoveredIsDense(meta);
        forall i, j | 0 <= i < |f.levels| && 0 <= j < |f.levels[i]|
          ensures f.levels[i][j].journalKey == BlockJournal(f.Front() + i, j)
        {
          TrimDense(f.levels, i, j, f.parents, {f.lastFinalized.value.0});
          assert Trim(f).levels[i][j].journalKey == BlockJournal(Trim(f).Front() + i, j);
        }
      }
    }
  }
}
