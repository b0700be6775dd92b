/** The other half of honesty: who breaks the rules on candidates that are known is accused. */
module Detection {
  import opened Primitives
  import opened Statements
  import opened TableInvariants
  import opened Gossip
  import opened TableTheorems

  /** The sender has a vote on record of the kind that the statement is. */
  ghost predicate OnRecord(ctx: Context, t: Votes, s: Signed) {
    var d, a := DigestOf(ctx, s), s.sender;
    && d in t.candidates
    && match s.statement
       case Propose(_) => a in t.candidates[d].validity && t.candidates[d].validity[a].IssuedVote?
       case Valid(_) => a in t.candidates[d].validity && t.candidates[d].validity[a].ValidVote?
       case Invalid(_) => a in t.candidates[d].validity && t.candidates[d].validity[a].InvalidVote?
       case Available(_) => a in t.candidates[d].availability
  }

  /** The statement is on record or its sender is accused. */
  ghost predicate Noted(ctx: Context, t: Votes, s: Signed) {
    s.sender in t.misbehavior || OnRecord(ctx, t, s)
  }

  /** The table can judge the statement: it is a proposal, or its candidate is known. */
  ghost predicate Judged(ctx: Context, t: Votes, s: Signed) {
    s.statement.Propose? || DigestOf(ctx, s) in t.candidates
  }

  // ---------- When a statement is imported ----------

  lemma VoteIsNoted(ctx: Context, t: Votes, from: AuthorityId, d: Digest, vote: Vote)
    requires Sound(ctx, t) && d in t.candidates
    requires vote.IssuedVote? ==> ctx.isMember(from, t.candidates[d].group)
    ensures var o := ValidityVote(ctx, t, from, d, vote);
            o.misbehavior.None? ==>
              && d in o.votes.candidates && from in o.votes.candidates[d].validity
              && (vote.IssuedVote? <==> o.votes.candidates[d].validity[from].IssuedVote?)
              && (vote.ValidVote? <==> o.votes.candidates[d].validity[from].ValidVote?)
  {
  }

  lemma ProposalIsNoted(ctx: Context, said: set<Signed>, t: Votes, s: Signed)
    requires Inv(ctx, said, t) && Injective(ctx) && s.statement.Propose?
    ensures var o := Consider(ctx, t, s); o.misbehavior.Some? || OnRecord(ctx, o.votes, s)
  {
    var c, d, a := s.statement.candidate, DigestOf(ctx, s), s.sender;
    if ctx.isMember(a, ctx.group(c)) {
      match ProposalOf(t, a) {
        case Some(earlier) =>
          if earlier.0 == d {
            ProposerIsMember(ctx, t, a, c);
            VoteIsNoted(ctx, t, a, d, IssuedVote(s.signature));
          }
        case None =>
          var t1 := Proposed(ctx, t, a, c, s.signature);
          ProposedIsSound(ctx, t, a, c, s.signature);
          ProposerIsMember(ctx, t1, a, c);
          VoteIsNoted(ctx, t1, a, d, IssuedVote(s.signature));
      }
    }
  }

  lemma ConsideredIsNoted(ctx: Context, said: set<Signed>, t: Votes, s: Signed)
    requires Inv(ctx, said, t) && Injective(ctx) && Judged(ctx, t, s)
    ensures var o := Consider(ctx, t, s); o.misbehavior.Some? || OnRecord(ctx, o.votes, s)
  {
    match s.statement {
      case Propose(_) => ProposalIsNoted(ctx, said, t, s);
      case Valid(d) => VoteIsNoted(ctx, t, s.sender, d, ValidVote(s.signature));
      case Invalid(d) => VoteIsNoted(ctx, t, s.sender, d, InvalidVote(s.signature));
      case Available(d) =>
    }
  }

  lemma ImportIsNoted(ctx: Context, said: set<Signed>, t: Votes, s: Signed, from: Option<AuthorityId>)
    requires Inv(ctx, said, t) && Injective(ctx) && Judged(ctx, t, s)
    ensures Noted(ctx, Imported(ctx, t, s, from), s)
  {
    ConsideredIsNoted(ctx, said, t, s);
    NotedWhenSettled(ctx, Consider(ctx, t, s), s, from);
  }

  lemma NotedWhenSettled(ctx: Context, o: Outcome, s: Signed, from: Option<AuthorityId>)
    requires o.misbehavior.Some? || OnRecord(ctx, o.votes, s)
    ensures Noted(ctx, Settled(o, s, from), s)
  {
  }

  // ---------- Ever after ----------

  /** No vote is dropped or changed, and no accusation is withdrawn. */
  ghost predicate Keeps(t: Votes, t': Votes) {
    && t.misbehavior.Keys <= t'.misbehavior.Keys
    && forall d :: d in t.candidates ==> d in t'.candidates && KeepsAt(t.candidates[d], t'.candidates[d])
  }

  ghost predicate KeepsAt(data: CandidateData, data': CandidateData) {
    && (forall a :: a in data.validity ==> HasVote(data', a, data.validity[a]))
    && data.availability.Keys <= data'.availability.Keys
  }

  lemma KeptStaysNoted(ctx: Context, t: Votes, t': Votes, s: Signed)
    requires Keeps(t, t') && Noted(ctx, t, s)
    ensures Noted(ctx, t', s)
  {
    if OnRecord(ctx, t, s) {
      assert KeepsAt(t.candidates[DigestOf(ctx, s)], t'.candidates[DigestOf(ctx, s)]);
    }
  }

  lemma VoteKeeps(ctx: Context, t: Votes, from: AuthorityId, d: Digest, vote: Vote)
    requires Sound(ctx, t)
    requires vote.IssuedVote? && d in t.candidates ==> ctx.isMember(from, t.candidates[d].group)
    ensures Keeps(t, ValidityVote(ctx, t, from, d, vote).votes)
  {
  }

  lemma AvailabilityKeeps(ctx: Context, t: Votes, from: AuthorityId, d: Digest, signature: Signature)
    requires Sound(ctx, t)
    ensures Keeps(t, AvailabilityVote(ctx, t, from, d, signature).votes)
  {
  }

  lemma KeepsComposes(t: Votes, t': Votes, t'': Votes)
    requires Keeps(t, t') && Keeps(t', t'')
    ensures Keeps(t, t'')
  {
    forall d | d in t.candidates ensures d in t''.candidates && KeepsAt(t.candidates[d], t''.candidates[d]) {
      assert KeepsAt(t.candidates[d], t'.candidates[d]) && KeepsAt(t'.candidates[d], t''.candidates[d]);
    }
  }

  lemma ConsiderKeeps(ctx: Context, t: Votes, s: Signed)
    requires Sound(ctx, t) && Injective(ctx)
    ensures Keeps(t, Consider(ctx, t, s).votes)
  {
    match s.statement {
      case Propose(c) => ProposalKeeps(ctx, t, s.sender, c, s.signature);
      case Valid(d) => VoteKeeps(ctx, t, s.sender, d, ValidVote(s.signature));
      case Invalid(d) => VoteKeeps(ctx, t, s.sender, d, InvalidVote(s.signature));
      case Available(d) => AvailabilityKeeps(ctx, t, s.sender, d, s.signature);
    }
  }

  lemma ProposalKeeps(ctx: Context, t: Votes, from: AuthorityId, c: Candidate, signature: Signature)
    requires Sound(ctx, t) && Injective(ctx)
    ensures Keeps(t, ImportCandidate(ctx, t, from, c, signature).votes)
  {
    if ctx.isMember(from, ctx.group(c)) {
      var d := ctx.digest(c);
      match ProposalOf(t, from) {
        case Some(earlier) =>
          if earlier.0 == d {
            ProposerIsMember(ctx, t, from, c);
            VoteKeeps(ctx, t, from, d, IssuedVote(signature));
          }
        case None =>
          var t1 := Proposed(ctx, t, from, c, signature);
          ProposedIsSound(ctx, t, from, c, signature);
          ProposerIsMember(ctx, t1, from, c);
          VoteKeeps(ctx, t1, from, d, IssuedVote(signature));
          KeepsComposes(t, t1, ValidityVote(ctx, t1, from, d, IssuedVote(signature)).votes);
      }
    }
  }

  lemma NextKeeps(ctx: Context, t: Votes, e: Event)
    requires Sound(ctx, t) && Injective(ctx)
    ensures Keeps(t, Next(ctx, t, e))
  {
    match e {
      case Import(s, from) =>
        ConsiderKeeps(ctx, t, s);
        SettledKeeps(Consider(ctx, t, s), s, from);
        KeepsComposes(t, Consider(ctx, t, s).votes, Imported(ctx, t, s, from));
      case Spread(_, _) =>
    }
  }

  lemma SettledKeeps(o: Outcome, s: Signed, from: Option<AuthorityId>)
    ensures Keeps(o.votes, Settled(o, s, from))
  {
  }

  // ---------- Runs ----------

  /** The i-th event imports a statement that the table can judge by then. */
  ghost predicate JudgedAt(ctx: Context, events: seq<Event>, i: nat)
    requires Injective(ctx) && Fair(events) && i < |events|
  {
    events[i].Import? && Judged(ctx, After(ctx, events[..i]), events[i].statement)
  }

  /** On every run, every statement that could be judged is on record or its sender is accused. */
  lemma {:induction false} EveryStatementIsNoted(ctx: Context, events: seq<Event>, i: nat)
    requires Injective(ctx) && Fair(events) && i < |events| && JudgedAt(ctx, events, i)
    ensures Noted(ctx, After(ctx, events), events[i].statement)
  {
    var init, e := events[..|events| - 1], events[|events| - 1];
    if i == |events| - 1 {
      EveryRunIsBacked(ctx, init);
      ImportIsNoted(ctx, Said(init), After(ctx, init), e.statement, e.from);
    } else {
      assert init[..i] == events[..i];
      EveryStatementIsNoted(ctx, init, i);
      NextKeeps(ctx, After(ctx, init), e);
      KeptStaysNoted(ctx, After(ctx, init), After(ctx, events), events[i].statement);
    }
  }

  /** What is on record of one authority is compatible, and it was entitled to it. */
  lemma RecordIsLawful(ctx: Context, said: set<Signed>, t: Votes, s: Signed, s': Signed)
    requires Inv(ctx, said, t) && Injective(ctx) && OnRecord(ctx, t, s) && OnRecord(ctx, t, s') && s.sender == s'.sender
    ensures Compatible(ctx, s, s')
    ensures var g := t.candidates[DigestOf(ctx, s)].group;
            if s.statement.Available? then ctx.isGuarantor(s.sender, g) else ctx.isMember(s.sender, g)
    ensures s.statement.Propose? ==> ctx.isMember(s.sender, ctx.group(s.statement.candidate))
  {
    assert SoundCandidate(ctx, DigestOf(ctx, s), t.candidates[DigestOf(ctx, s)]);
    if s.statement.Available? {
      assert BackedAvailability(ctx, said, t, DigestOf(ctx, s), s.sender);
    } else {
      assert BackedVote(ctx, said, t, DigestOf(ctx, s), s.sender);
    }
    if s'.statement.Propose? {
      assert BackedVote(ctx, said, t, DigestOf(ctx, s'), s.sender);
    }
  }

  /** On every run, an authority is accused if it proposed two candidates, gave two kinds of vote
      on one candidate, or proposed or voted in a group it has no say in; votes as far as the
      candidates were known when they came in. */
  lemma EveryOffenderIsAccused(ctx: Context, events: seq<Event>, i: nat, j: nat)
    requires Injective(ctx) && Fair(events) && i < |events| && j < |events|
    requires JudgedAt(ctx, events, i) && JudgedAt(ctx, events, j) && events[i].statement.sender == events[j].statement.sender
    requires var s, t := events[i].statement, After(ctx, events);
             || !Compatible(ctx, s, events[j].statement)
             || (s.statement.Propose? && !ctx.isMember(s.sender, ctx.group(s.statement.candidate)))
             || (DigestOf(ctx, s) in t.candidates &&
                 var g := t.candidates[DigestOf(ctx, s)].group;
                 if s.statement.Available? then !ctx.isGuarantor(s.sender, g) else !ctx.isMember(s.sender, g))
    ensures events[i].statement.sender in After(ctx, events).misbehavior
  {
    var s, s', t := events[i].statement, events[j].statement, After(ctx, events);
    EveryStatementIsNoted(ctx, events, i);
    EveryStatementIsNoted(ctx, events, j);
    EveryRunIsBacked(ctx, events);
    if OnRecord(ctx, t, s) && OnRecord(ctx, t, s') {
      RecordIsLawful(ctx, Said(events), t, s, s');
    }
  }
}
