/** The statement table over every run of imports and gossip. */
module TableTheorems {
  import opened Primitives
  import opened Statements
  import opened TableCounts
  import opened TableInvariants
  import opened Gossip
  import opened Batches

  /** What happens to a table: a statement is imported, or a batch is filled for targets that
      are then known to have seen the traces in it. */
  datatype Event =
    | Import(statement: Signed, from: Option<AuthorityId>)
    | Spread(targets: seq<AuthorityId>, traces: set<Trace>)

  /** Batches have distinct targets. */
  ghost predicate Fair(events: seq<Event>) {
    forall e :: e in events && e.Spread? ==> NoRepeat(e.targets)
  }

  ghost function Said(events: seq<Event>): set<Signed> {
    set e | e in events && e.Import? :: e.statement
  }

  ghost function Next(ctx: Context, t: Votes, e: Event): Votes
    requires Sound(ctx, t) && Injective(ctx)
  {
    match e
    case Import(s, from) => Imported(ctx, t, s, from)
    case Spread(targets, traces) => Gossiped(t, targets, traces)
  }

  lemma DistinctTargetsKeepVotes(t: Votes, targets: seq<AuthorityId>, traces: set<Trace>)
    requires NoRepeat(targets)
    ensures SameVotes(t, Gossiped(t, targets, traces))
  {
    forall a ensures !Repeated(targets, a) {
      OccursOnce(targets, a);
    }
    GossipKeepsVotesIff(t, targets, traces);
  }

  lemma {:induction false} OccursOnce(s: seq<AuthorityId>, a: AuthorityId)
    requires NoRepeat(s)
    ensures multiset(s)[a] <= 1
  {
    if s != [] {
      var init := s[..|s| - 1];
      assert s == init + [s[|s| - 1]];
      OccursOnce(init, a);
      assert s[|s| - 1] !in init;
    }
  }

  lemma NextIsSound(ctx: Context, t: Votes, e: Event)
    requires Sound(ctx, t) && Injective(ctx) && (e.Spread? ==> NoRepeat(e.targets))
    ensures Sound(ctx, Next(ctx, t, e))
    ensures Counted(ctx, t) && SomeVoteNeeded(ctx) ==> Counted(ctx, Next(ctx, t, e))
  {
    match e {
      case Import(s, from) => ImportIsSound(ctx, t, s, from);
      case Spread(targets, traces) =>
        DistinctTargetsKeepVotes(t, targets, traces);
        SameVotesStaySound(ctx, t, Next(ctx, t, e));
        if Counted(ctx, t) {
          SameVotesStayCounted(ctx, t, Next(ctx, t, e));
        }
    }
  }

  /** The table after a run. That it is defined on every run says that no run panics. */
  ghost function After(ctx: Context, events: seq<Event>): (t: Votes)
    requires Injective(ctx) && Fair(events)
    ensures Sound(ctx, t)
  {
    if events == [] then NO_VOTES
    else
      var before := After(ctx, events[..|events| - 1]);
      NextIsSound(ctx, before, events[|events| - 1]);
      Next(ctx, before, events[|events| - 1])
  }

  // ---------- Counts ----------

  lemma {:induction false} EveryRunIsCounted(ctx: Context, events: seq<Event>)
    requires Injective(ctx) && Fair(events) && SomeVoteNeeded(ctx)
    ensures Counted(ctx, After(ctx, events))
  {
    if events != [] {
      var init := events[..|events| - 1];
      EveryRunIsCounted(ctx, init);
      NextIsSound(ctx, After(ctx, init), events[|events| - 1]);
    }
  }

  ghost predicate AlwaysCounted(ctx: Context)
    requires Injective(ctx)
  {
    forall events :: Fair(events) ==> Counted(ctx, After(ctx, events))
  }

  /** The cached counts agree with a recount on every run exactly when no candidate that
      somebody may propose is includable without any vote. */
  lemma CountsAgreeIff(ctx: Context)
    requires Injective(ctx)
    ensures AlwaysCounted(ctx) <==> SomeVoteNeeded(ctx)
  {
    if SomeVoteNeeded(ctx) {
      forall events | Fair(events) ensures Counted(ctx, After(ctx, events)) {
        EveryRunIsCounted(ctx, events);
      }
    }
    forall a, c | AlwaysCounted(ctx) && ctx.isMember(a, ctx.group(c)) ensures ctx.requisite(ctx.group(c)) != (0, 0) {
      VotesAreNeeded(ctx, a, c);
    }
  }

  lemma VotesAreNeeded(ctx: Context, a: AuthorityId, c: Candidate)
    requires Injective(ctx) && AlwaysCounted(ctx) && ctx.isMember(a, ctx.group(c))
    ensures ctx.requisite(ctx.group(c)) != (0, 0)
  {
    var sig: Signature := *;
    var run := [Import(Signed(Propose(c), sig, a), None)];
    assert Fair(run);
    assert CountedAt(ctx, After(ctx, run), ctx.group(c));
    FreeCandidateIsNotCounted(ctx, a, c, sig);
  }

  lemma FreeCandidateIsNotCounted(ctx: Context, a: AuthorityId, c: Candidate, sig: Signature)
    requires Injective(ctx) && ctx.isMember(a, ctx.group(c))
    ensures ctx.requisite(ctx.group(c)) == (0, 0) ==> !CountedAt(ctx, After(ctx, [Import(Signed(Propose(c), sig, a), None)]), ctx.group(c))
  {
  }

  // ---------- Honesty ----------

  lemma {:induction false} EveryRunIsBacked(ctx: Context, events: seq<Event>)
    requires Injective(ctx) && Fair(events)
    ensures Inv(ctx, Said(events), After(ctx, events))
  {
    if events != [] {
      var init, e := events[..|events| - 1], events[|events| - 1];
      EveryRunIsBacked(ctx, init);
      SaidAppend(init, e);
      assert events == init + [e];
      NextKeepsInv(ctx, Said(init), After(ctx, init), e);
    }
  }

  lemma NextKeepsInv(ctx: Context, said: set<Signed>, t: Votes, e: Event)
    requires Inv(ctx, said, t) && Injective(ctx) && (e.Spread? ==> NoRepeat(e.targets))
    ensures Inv(ctx, said + (if e.Import? then {e.statement} else {}), Next(ctx, t, e))
  {
    match e {
      case Import(s, from) => ImportKeepsInv(ctx, said, t, s, from);
      case Spread(targets, traces) =>
        DistinctTargetsKeepVotes(t, targets, traces);
        SameVotesKeepInv(ctx, said, t, Next(ctx, t, e));
        assert said + {} == said;
    }
  }

  lemma SaidAppend(events: seq<Event>, e: Event)
    ensures Said(events + [e]) == Said(events) + (if e.Import? then {e.statement} else {})
  {
    forall s ensures s in Said(events + [e]) <==> s in Said(events) + (if e.Import? then {e.statement} else {}) {
      if s in Said(events) {
        var i :| i in events && i.Import? && i.statement == s;
        assert i in events + [e];
      }
      if e.Import? {
        assert e in events + [e];
      }
    }
  }

  datatype Kind = Proposing | Approving | Rejecting

  /** The kind of validity vote a statement is. */
  function KindOf(s: Signed): Option<Kind> {
    match s.statement
    case Propose(_) => Some(Proposing)
    case Valid(_) => Some(Approving)
    case Invalid(_) => Some(Rejecting)
    case Available(_) => None
  }

  /** An authority that states only what it may, proposes one candidate, and never gives two
      kinds of vote on one digest. */
  ghost predicate Honest(ctx: Context, said: set<Signed>, a: AuthorityId) {
    && (forall s :: s in said && s.sender == a ==> Entitled(ctx, said, s))
    && (forall s, s' :: s in said && s' in said && s.sender == a && s'.sender == a ==> Compatible(ctx, s, s'))
  }

  ghost predicate Compatible(ctx: Context, s: Signed, s': Signed) {
    && (s.statement.Propose? && s'.statement.Propose? ==> s.statement == s'.statement)
    && (DigestOf(ctx, s) == DigestOf(ctx, s') && KindOf(s).Some? && KindOf(s').Some? ==> KindOf(s) == KindOf(s'))
  }

  lemma ProofRefutesHonesty(ctx: Context, said: set<Signed>, a: AuthorityId, m: Misbehavior)
    requires Proven(ctx, said, a, m)
    ensures !Honest(ctx, said, a)
  {
    match m {
      case IssuedAndValidity(c, i, d, g) => assert !Compatible(ctx, Signed(Propose(c), i, a), Signed(Valid(d), g, a));
      case IssuedAndInvalidity(c, i, d, b) => assert !Compatible(ctx, Signed(Propose(c), i, a), Signed(Invalid(d), b, a));
      case ValidityAndInvalidity(d, g, b) => assert !Compatible(ctx, Signed(Valid(d), g, a), Signed(Invalid(d), b, a));
      case MultipleCandidates(x, y) => assert !Compatible(ctx, Signed(Propose(x.0), x.1, a), Signed(Propose(y.0), y.1, a));
      case Unauthorized(s) => assert !Entitled(ctx, said, s);
    }
  }

  /** On every run, whoever is accused made the statements the accusation cites, and no honest
      authority is accused. */
  lemma NoHonestAuthorityIsAccused(ctx: Context, events: seq<Event>)
    requires Injective(ctx) && Fair(events)
    ensures AllProven(ctx, Said(events), After(ctx, events))
    ensures forall a :: Honest(ctx, Said(events), a) ==> a !in After(ctx, events).misbehavior
  {
    EveryRunIsBacked(ctx, events);
    var t := After(ctx, events);
    forall a | a in t.misbehavior ensures !Honest(ctx, Said(events), a) {
      ProofRefutesHonesty(ctx, Said(events), a, t.misbehavior[a]);
    }
  }

  /** Some target knows nothing yet. */
  ghost predicate HasFreshTarget(t: Votes, targets: seq<AuthorityId>) {
    exists i :: 0 <= i < |targets| && KnownAtFirst(t, targets, i) == {}
  }

  /** From every table a run can reach: what an unbounded batch for a fresh target holds, in
      whatever order it was filled, rebuilds the table's votes, bad marks, counts and the proposals
      on record. */
  lemma EveryTableSurvivesGossip(ctx: Context, events: seq<Event>, targets: seq<AuthorityId>, sent: seq<Signed>, from: Option<AuthorityId>)
    requires Injective(ctx) && Fair(events)
    requires HasFreshTarget(After(ctx, events), targets) && Batch(ctx, After(ctx, events), targets, sent)
    requires forall s :: Recorded(ctx, After(ctx, events), s) ==> Handled(After(ctx, events), targets, sent, s)
    ensures var t, copy := After(ctx, events), Replay(ctx, NO_VOTES, sent, from);
            && copy.misbehavior == map[]
            && copy.candidates.Keys == t.candidates.Keys
            && (forall d :: d in t.candidates ==> SameCandidate(t.candidates[d], copy.candidates[d]))
            && (SomeVoteNeeded(ctx) ==> copy.includable == t.includable)
            && (forall a :: ProposalOf(copy, a) == ProposalOnRecord(t, a))
  {
    EveryRunIsBacked(ctx, events);
    FreshTargetGetsAll(ctx, Said(events), After(ctx, events), targets, sent);
    GossipRoundTrip(ctx, Said(events), After(ctx, events), sent, from);
    if SomeVoteNeeded(ctx) {
      EveryRunIsCounted(ctx, events);
    }
  }
}
