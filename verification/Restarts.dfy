/** Restarts along a run: the forest comes back at every moment of a run exactly when no
    finalization leaves a gap in the journal indices of a level. */
module Restarts {
  import opened Primitives
  import opened Commits
  import opened Forests
  import opened Unfinalized
  import opened Finality
  import FJ = ForestJournal
  import FR = ForestRecovery
  import opened Pruning
  import opened StateRun
  import opened StateTheorems

  // ---------- Runs that can restart at every moment ----------

  /** If this is a finalization, the blocks that go stand after those that stay. */
  ghost predicate LosersLastStep(m: Moment, e: Event) {
    e.Finalize? ==> FJ.LosersLast(m.sys.forest, e.hash)
  }

  ghost predicate LosersLastRun(moments: seq<Moment>, events: seq<Event>)
    requires |moments| == |events| + 1
  {
    forall i :: 0 <= i < |events| ==> LosersLastStep(moments[i], events[i])
  }

  lemma TrimKeepsDense(f: Forest)
    requires FJ.Dense(f)
    ensures FJ.Dense(FR.Trim(f))
  {
    TrimmedIsPrefix(f.levels);
    var g := FR.Trim(f);
    forall i, j | 0 <= i < |g.levels| && 0 <= j < |g.levels[i]| ensures g.levels[i][j].journalKey == BlockJournal(g.Front() + i, j) {
      assert f.levels[i][j].journalKey == BlockJournal(f.Front() + i, j);
    }
  }

  lemma FinalizeMomentIs(maxBlocks: nat, m: Moment, hash: BlockHash, m': Moment)
    requires FinalizeMoment(maxBlocks, m, hash, m')
    ensures CanFinalize(m.sys.forest, hash) && m'.sys.forest == Finalized(m.sys.forest, hash)
  {
  }

  lemma StepKeepsDense(maxBlocks: nat, content: Key -> DBValue, m: Moment, e: Event, m': Moment)
    requires Inv(m.sys, m.hist, content) && Step(maxBlocks, content, m, e, m') && FJ.Dense(m.sys.forest)
    ensures FJ.Dense(m'.sys.forest) <==> LosersLastStep(m, e)
  {
    match e {
      case Insert(record, number) => FJ.InsertKeepsDense(m.sys.forest, record, number);
      case Finalize(hash) =>
        FinalizeMomentIs(maxBlocks, m, hash, m');
        FJ.FinalizeKeepsDenseIff(m.sys.forest, hash);
      case Restart =>
        RestartKeepsInv(m.sys, m.hist, content, m'.sys);
        TrimKeepsDense(m.sys.forest);
      case _ =>
    }
  }

  lemma RunStepKeepsDense(maxBlocks: nat, content: Key -> DBValue, moments: seq<Moment>, events: seq<Event>, i: nat)
    requires Run(maxBlocks, content, moments, events) && i < |events| && FJ.Dense(moments[i].sys.forest)
    ensures FJ.Dense(moments[i + 1].sys.forest) <==> LosersLastStep(moments[i], events[i])
  {
    RunKeepsInv(maxBlocks, content, moments, events, i);
    StepKeepsDense(maxBlocks, content, moments[i], events[i], moments[i + 1]);
  }

  lemma {:induction false} RunKeepsDense(maxBlocks: nat, content: Key -> DBValue, moments: seq<Moment>, events: seq<Event>, i: nat)
    requires Run(maxBlocks, content, moments, events) && LosersLastRun(moments, events) && i < |moments|
    ensures FJ.Dense(moments[i].sys.forest)
  {
    if i == 0 {
      assert moments[0].sys.forest == EMPTY_FOREST;
    } else {
      RunKeepsDense(maxBlocks, content, moments, events, i - 1);
      assert LosersLastStep(moments[i - 1], events[i - 1]);
      RunStepKeepsDense(maxBlocks, content, moments, events, i - 1);
    }
  }

  /** Restarting at this moment brings the forest back, up to the empty levels at its end. */
  ghost predicate Recoverable(m: Moment) {
    FR.Recovered(m.sys.meta) == Ok(FR.Trim(m.sys.forest))
  }

  /** A restart recovers the forest at every moment of a run if and only if each of the run's
      finalizations discards, on every level, only blocks behind those it keeps. */
  lemma EveryRestartRecoversIff(maxBlocks: nat, content: Key -> DBValue, moments: seq<Moment>, events: seq<Event>)
    requires Run(maxBlocks, content, moments, events)
    ensures (forall i :: 0 <= i < |moments| ==> Recoverable(moments[i])) <==> LosersLastRun(moments, events)
  {
    forall i | 0 <= i < |moments| ensures Recoverable(moments[i]) <==> FJ.Dense(moments[i].sys.forest) {
      RunKeepsInv(maxBlocks, content, moments, events, i);
      FR.RecoveryIsExactIffDense(moments[i].sys.forest, moments[i].sys.meta);
    }
    if LosersLastRun(moments, events) {
      forall i | 0 <= i < |moments| ensures Recoverable(moments[i]) {
        RunKeepsDense(maxBlocks, content, moments, events, i);
      }
    } else {
      var i :| 0 <= i < |events| && !LosersLastStep(moments[i], events[i]);
      if FJ.Dense(moments[i].sys.forest) {
        RunStepKeepsDense(maxBlocks, content, moments, events, i);
        assert !Recoverable(moments[i + 1]);
      } else {
        assert !Recoverable(moments[i]);
      }
    }
  }

  // ---------- A run that cannot ----------

  function Bare(hash: BlockHash, number: nat, index: nat): BlockOverlay {
    BlockOverlay(hash, BlockJournal(number, index), map[], [])
  }

  /** Two roots, each with one child. */
  function Fork(top: BlockHash, r0: BlockHash, r1: BlockHash, a: BlockHash, b: BlockHash): Forest {
    Forest(Some((top, 0)), [[Bare(r0, 1, 0), Bare(r1, 1, 1)], [Bare(a, 2, 0), Bare(b, 2, 1)]],
           map[r0 := top, r1 := top, a := r0, b := r1])
  }

  function Roots(top: BlockHash, r0: BlockHash, r1: BlockHash): Forest {
    Forest(Some((top, 0)), [[Bare(r0, 1, 0), Bare(r1, 1, 1)]], map[r0 := top, r1 := top])
  }

  function Stem(top: BlockHash, r0: BlockHash, r1: BlockHash, a: BlockHash): Forest {
    Forest(Some((top, 0)), [[Bare(r0, 1, 0), Bare(r1, 1, 1)], [Bare(a, 2, 0)]], map[r0 := top, r1 := top, a := r0])
  }

  lemma StemIsReachable(top: BlockHash, r0: BlockHash, r1: BlockHash, a: BlockHash)
    ensures Inserted(Roots(top, r0, r1), BlockRecord(a, r0, [], []), 2) == Stem(top, r0, r1, a)
  {
    InsertsBare(Roots(top, r0, r1), a, r0, 2);
  }

  lemma ForkIsReachable(top: BlockHash, r0: BlockHash, r1: BlockHash, a: BlockHash, b: BlockHash)
    ensures Inserted(Stem(top, r0, r1, a), BlockRecord(b, r1, [], []), 2) == Fork(top, r0, r1, a, b)
  {
    InsertsBare(Stem(top, r0, r1, a), b, r1, 2);
    assert [Bare(a, 2, 0)] + [Bare(b, 2, 1)] == [Bare(a, 2, 0), Bare(b, 2, 1)];
  }

  lemma RootsAreReachable(top: BlockHash, r0: BlockHash, r1: BlockHash)
    ensures var f1 := Inserted(EMPTY_FOREST, BlockRecord(r0, top, [], []), 1);
            && f1 == Forest(Some((top, 0)), [[Bare(r0, 1, 0)]], map[r0 := top])
            && Inserted(f1, BlockRecord(r1, top, [], []), 1) == Roots(top, r0, r1)
  {
    var b0, b1 := Bare(r0, 1, 0), Bare(r1, 1, 1);
    InsertsBare(Forest(Some((top, 0)), [], map[]), r0, top, 1);
    assert Grounded(EMPTY_FOREST, 1, top) == Forest(Some((top, 0)), [], map[]);
    var f1 := Inserted(EMPTY_FOREST, BlockRecord(r0, top, [], []), 1);
    assert f1 == Forest(Some((top, 0)), [[b0]], map[r0 := top]);
    InsertsBare(f1, r1, top, 1);
    assert [b0] + [b1] == [b0, b1];
  }

  lemma InsertsBare(f: Forest, hash: BlockHash, parent: BlockHash, number: nat)
    requires f.lastFinalized.Some? && CanInsert(f, number, parent)
    ensures var i := number - f.Front();
            Inserted(f, BlockRecord(hash, parent, [], []), number)
            == f.(levels := if i == |f.levels| then f.levels + [[Bare(hash, number, 0)]]
                            else f.levels[i := f.levels[i] + [Bare(hash, number, |f.levels[i]|)]],
                  parents := f.parents[hash := parent])
  {
    assert Collect<Key, DBValue>([]) == map[];
    var i := number - f.Front();
    if i == |f.levels| {
      assert (f.levels + [[]])[i := [Bare(hash, number, 0)]] == f.levels + [[Bare(hash, number, 0)]];
      assert [] + [Bare(hash, number, 0)] == [Bare(hash, number, 0)];
    }
  }

  /** What the four insertions leave of the rest: one state for every block, nothing finalized yet. */
  ghost predicate Young(m: Moment, f: Forest, top: BlockHash, known: set<BlockHash>) {
    && m.sys.forest == f && m.sys.window == Window(1, [], map[])
    && m.hist.states.Keys == known && m.hist.kept == [top] && m.hist.log == []
  }

  lemma BareInsert(content: Key -> DBValue, m: Moment, f: Forest, top: BlockHash, known: set<BlockHash>, hash: BlockHash, parent: BlockHash, number: nat)
    returns (m': Moment)
    requires Young(m, f, top, known) && f.lastFinalized.Some?
    requires CanInsert(f, number, parent) && WellPlaced(f, BlockRecord(hash, parent, [], []), number)
    requires hash !in known && parent in known
    ensures InsertMoment(content, m, BlockRecord(hash, parent, [], []), number, m')
    ensures Young(m', Inserted(f, BlockRecord(hash, parent, [], []), number), top, known + {hash})
  {
    var r := BlockRecord(hash, parent, [], []);
    var commit := InsertCommit(f, r, number);
    m' := Moment(m.sys.(forest := Inserted(f, r, number), data := Applied(m.sys.data, commit.data), meta := Applied(m.sys.meta, commit.meta)),
                 InsertHistory(m.sys, m.hist, r));
  }

  lemma FirstInsert(content: Key -> DBValue, m: Moment, top: BlockHash, hash: BlockHash) returns (m': Moment)
    requires Initial(m, content) && hash != top
    ensures InsertMoment(content, m, BlockRecord(hash, top, [], []), 1, m')
    ensures Young(m', Inserted(EMPTY_FOREST, BlockRecord(hash, top, [], []), 1), top, {top, hash})
  {
    var r := BlockRecord(hash, top, [], []);
    var commit := InsertCommit(EMPTY_FOREST, r, 1);
    m' := Moment(m.sys.(forest := Inserted(EMPTY_FOREST, r, 1), data := Applied(m.sys.data, commit.data), meta := Applied(m.sys.meta, commit.meta)),
                 InsertHistory(m.sys, m.hist, r));
  }

  lemma FirstIndexMissing(f: Forest, meta: Meta)
    requires ForestInv(f, meta) && |f.levels| == 1 && f.levels[0] != []
    requires f.levels[0][0].journalKey != BlockJournal(f.Front(), 0)
    ensures FR.Recovered(meta) != Ok(f)
  {
    assert f.levels[0][0].journalKey != BlockJournal(f.Front() + 0, 0);
    FR.RecoveryIsExactIffDense(f, meta);
    assert FR.Trimmed(f.levels) == f.levels;
  }

  lemma ForkFinalizes(top: BlockHash, r0: BlockHash, r1: BlockHash, a: BlockHash, b: BlockHash)
    requires r0 != r1 && a != b && a !in {r0, r1} && b !in {r0, r1}
    ensures var f := Fork(top, r0, r1, a, b);
            FJ.Dense(f) && CanFinalize(f, r1) && Finalized(f, r1).levels == [[Bare(b, 2, 1)]]
  {
    var f := Fork(top, r0, r1, a, b);
    var oa, ob := Bare(a, 2, 0), Bare(b, 2, 1);
    assert f.levels[0][1] in f.levels[0] && f.levels[0][1].hash == r1;
    assert f.levels[0][0] in f.levels[0] && f.levels[0][0].hash == r0;
    assert Losers(f, r1) == {r0};
    assert f.levels[1..] == [[oa, ob]];
    assert [oa, ob][..1] == [oa] && [oa][..0] == [];
    assert Keep([oa], f.parents, {r0}) == [];
    assert Keep([oa, ob], f.parents, {r0}) == [ob];
  }


  function InsertBare(hash: BlockHash, parent: BlockHash, number: nat): Event {
    Insert(BlockRecord(hash, parent, [], []), number)
  }

  lemma ForkRoots(maxBlocks: nat, content: Key -> DBValue, m: Moment, top: BlockHash, r0: BlockHash, r1: BlockHash) returns (m1: Moment, m2: Moment)
    requires Initial(m, content) && top != r0 && top != r1 && r0 != r1
    ensures Step(maxBlocks, content, m, InsertBare(r0, top, 1), m1) && Step(maxBlocks, content, m1, InsertBare(r1, top, 1), m2)
    ensures Young(m2, Roots(top, r0, r1), top, {top, r0, r1})
  {
    RootsAreReachable(top, r0, r1);
    m1 := FirstInsert(content, m, top, r0);
    m2 := BareInsert(content, m1, m1.sys.forest, top, {top, r0}, r1, top, 1);
    assert {top, r0} + {r1} == {top, r0, r1};
  }

  lemma ForkLeaf(maxBlocks: nat, content: Key -> DBValue, m: Moment, top: BlockHash, r0: BlockHash, r1: BlockHash, a: BlockHash) returns (m': Moment)
    requires Young(m, Roots(top, r0, r1), top, {top, r0, r1}) && a !in {top, r0, r1}
    ensures Step(maxBlocks, content, m, InsertBare(a, r0, 2), m')
    ensures Young(m', Stem(top, r0, r1, a), top, {top, r0, r1} + {a})
  {
    StemIsReachable(top, r0, r1, a);
    var f := Roots(top, r0, r1);
    assert f.levels[0][0] in f.levels[0] && f.levels[0][0].hash == r0;
    m' := BareInsert(content, m, f, top, {top, r0, r1}, a, r0, 2);
  }

  lemma ForkSecondLeaf(maxBlocks: nat, content: Key -> DBValue, m: Moment, top: BlockHash, r0: BlockHash, r1: BlockHash, a: BlockHash, b: BlockHash)
    returns (m': Moment)
    requires Young(m, Stem(top, r0, r1, a), top, {top, r0, r1} + {a}) && b !in {top, r0, r1} + {a}
    ensures Step(maxBlocks, content, m, InsertBare(b, r1, 2), m')
    ensures Young(m', Fork(top, r0, r1, a, b), top, {top, r0, r1} + {a} + {b})
  {
    ForkIsReachable(top, r0, r1, a, b);
    var f := Stem(top, r0, r1, a);
    assert f.levels[0][1] in f.levels[0] && f.levels[0][1].hash == r1;
    m' := BareInsert(content, m, f, top, {top, r0, r1} + {a}, b, r1, 2);
  }

  lemma ForkFinalized(maxBlocks: nat, m: Moment, top: BlockHash, r0: BlockHash, r1: BlockHash, a: BlockHash, b: BlockHash) returns (m': Moment)
    requires maxBlocks >= 1 && exists known :: Young(m, Fork(top, r0, r1, a, b), top, known)
    requires r0 != r1 && a != b && a !in {r0, r1} && b !in {r0, r1}
    ensures FinalizeMoment(maxBlocks, m, r1, m') && m'.sys.forest == Finalized(m.sys.forest, r1)
    ensures m'.sys.forest.levels == [[Bare(b, 2, 1)]]
  {
    ForkFinalizes(top, r0, r1, a, b);
    assert Bare(r1, 1, 1) == m.sys.forest.levels[0][1];
    assert Collect<Key, DBValue>([]) == map[];
    m' := FirstFinalize(maxBlocks, m, Bare(r1, 1, 1), []);
    FinalizeMomentIs(maxBlocks, m, r1, m');
  }

  lemma ForkRun(maxBlocks: nat, content: Key -> DBValue, start: Moment,
                top: BlockHash, r0: BlockHash, r1: BlockHash, a: BlockHash, b: BlockHash) returns (m1: Moment, m2: Moment, m3: Moment, m4: Moment)
    requires Initial(start, content)
    requires top != r0 && top != r1 && r0 != r1 && a != b && a !in {top, r0, r1} && b !in {top, r0, r1}
    ensures Run(maxBlocks, content, [start] + [m1] + [m2] + [m3] + [m4],
                [] + [InsertBare(r0, top, 1)] + [InsertBare(r1, top, 1)] + [InsertBare(a, r0, 2)] + [InsertBare(b, r1, 2)])
    ensures Young(m4, Fork(top, r0, r1, a, b), top, {top, r0, r1} + {a} + {b})
  {
    var none: seq<Event> := [];
    m1, m2 := ForkRoots(maxBlocks, content, start, top, r0, r1);
    m3 := ForkLeaf(maxBlocks, content, m2, top, r0, r1, a);
    m4 := ForkSecondLeaf(maxBlocks, content, m3, top, r0, r1, a, b);
    RunSnoc(maxBlocks, content, [start], none, InsertBare(r0, top, 1), m1);
    RunSnoc(maxBlocks, content, [start] + [m1], none + [InsertBare(r0, top, 1)], InsertBare(r1, top, 1), m2);
    RunSnoc(maxBlocks, content, [start] + [m1] + [m2], none + [InsertBare(r0, top, 1)] + [InsertBare(r1, top, 1)], InsertBare(a, r0, 2), m3);
    RunSnoc(maxBlocks, content, [start] + [m1] + [m2] + [m3],
            none + [InsertBare(r0, top, 1)] + [InsertBare(r1, top, 1)] + [InsertBare(a, r0, 2)], InsertBare(b, r1, 2), m4);
  }

  /** Four insertions, then the second root is finalized. Its child keeps journal index 1 although
      it is now the first of its level, so a restart, which reads indices from 0 up, misses it. */
  lemma GapForgetsBlock(maxBlocks: nat, content: Key -> DBValue, start: Moment,
                        top: BlockHash, r0: BlockHash, r1: BlockHash, a: BlockHash, b: BlockHash) returns (moments: seq<Moment>)
    requires maxBlocks >= 1 && Initial(start, content)
    requires top != r0 && top != r1 && r0 != r1 && a != b && a !in {top, r0, r1} && b !in {top, r0, r1}
    ensures Run(maxBlocks, content, moments,
                [InsertBare(r0, top, 1), InsertBare(r1, top, 1), InsertBare(a, r0, 2), InsertBare(b, r1, 2), Finalize(r1)])
    ensures moments[0] == start && moments[4].sys.forest == Fork(top, r0, r1, a, b)
    ensures moments[5].sys.forest.levels == [[Bare(b, 2, 1)]]
    ensures FR.Recovered(moments[5].sys.meta) != Ok(moments[5].sys.forest)
  {
    var m1, m2, m3, m4 := ForkRun(maxBlocks, content, start, top, r0, r1, a, b);
    var m5 := ForkFinalized(maxBlocks, m4, top, r0, r1, a, b);
    var before := [start] + [m1] + [m2] + [m3] + [m4];
    var events := [] + [InsertBare(r0, top, 1)] + [InsertBare(r1, top, 1)] + [InsertBare(a, r0, 2)] + [InsertBare(b, r1, 2)];
    moments := before + [m5];
    assert moments[5] == m5 && moments[4] == m4;
    RunSnoc(maxBlocks, content, before, events, Finalize(r1), m5);
    GapIsMissed(maxBlocks, content, moments, events + [Finalize(r1)], 5);
    FiveEvents(InsertBare(r0, top, 1), InsertBare(r1, top, 1), InsertBare(a, r0, 2), InsertBare(b, r1, 2), Finalize(r1));
  }

  lemma FiveEvents(e0: Event, e1: Event, e2: Event, e3: Event, e4: Event)
    ensures [] + [e0] + [e1] + [e2] + [e3] + [e4] == [e0, e1, e2, e3, e4]
  {
  }

  lemma GapIsMissed(maxBlocks: nat, content: Key -> DBValue, moments: seq<Moment>, events: seq<Event>, i: nat)
    requires Run(maxBlocks, content, moments, events) && i < |moments|
    requires var f := moments[i].sys.forest; |f.levels| == 1 && f.levels[0] != [] && f.levels[0][0].journalKey != BlockJournal(f.Front(), 0)
    ensures FR.Recovered(moments[i].sys.meta) != Ok(moments[i].sys.forest)
  {
    RunKeepsInv(maxBlocks, content, moments, events, i);
    FirstIndexMissing(moments[i].sys.forest, moments[i].sys.meta);
  }
}
