/** What every reachable statement table satisfies: every vote, every proposal and every
    accusation is backed by statements that were imported. */
module TableInvariants {
  import opened Primitives
  import opened Statements
  import opened TableCounts

  // ---------- Evidence ----------

  /** The statement a recorded vote stands for. */
  function StatementFor(data: CandidateData, d: Digest, vote: Vote): Statement {
    match vote
    case IssuedVote(_) => Propose(data.candidate)
    case ValidVote(_) => Valid(d)
    case InvalidVote(_) => Invalid(d)
  }

  ghost predicate BackedVote(ctx: Context, said: set<Signed>, t: Votes, d: Digest, a: AuthorityId)
    requires d in t.candidates && a in t.candidates[d].validity
  {
    var data, vote := t.candidates[d], t.candidates[d].validity[a];
    && ctx.isMember(a, data.group)
    && Signed(StatementFor(data, d, vote), vote.signature, a) in said
    && (vote.IssuedVote? ==> ProposalOf(t, a) == Some((d, vote.signature)))
  }

  ghost predicate BackedAvailability(ctx: Context, said: set<Signed>, t: Votes, d: Digest, a: AuthorityId)
    requires d in t.candidates && a in t.candidates[d].availability
  {
    && ctx.isGuarantor(a, t.candidates[d].group)
    && Signed(Available(d), t.candidates[d].availability[a], a) in said
  }

  ghost predicate Backed(ctx: Context, said: set<Signed>, t: Votes) {
    && (forall d, a :: d in t.candidates && a in t.candidates[d].validity ==> BackedVote(ctx, said, t, d, a))
    && (forall d, a :: d in t.candidates && a in t.candidates[d].availability ==> BackedAvailability(ctx, said, t, d, a))
    && (forall d :: d in t.candidates ==> ProposedIn(ctx, said, d))
    && (forall a :: ProposalOf(t, a).Some? ==> BackedProposal(said, t, a))
  }

  ghost predicate BackedProposal(said: set<Signed>, t: Votes, a: AuthorityId) {
    ProposalOf(t, a).Some? ==>
      var (d, s) := ProposalOf(t, a).value;
      d in t.candidates && Signed(Propose(t.candidates[d].candidate), s, a) in said
  }

  /** Somebody proposed the candidate with this digest. */
  ghost predicate ProposedIn(ctx: Context, said: set<Signed>, d: Digest) {
    exists p :: p in said && p.statement.Propose? && ctx.digest(p.statement.candidate) == d
  }

  /** Whether a sender may make a statement, given which candidates were proposed. */
  ghost predicate Entitled(ctx: Context, said: set<Signed>, s: Signed) {
    match s.statement
    case Propose(c) => ctx.isMember(s.sender, ctx.group(c))
    case Valid(d) => forall p :: Names(ctx, said, p, d) ==> ctx.isMember(s.sender, ctx.group(p.statement.candidate))
    case Invalid(d) => forall p :: Names(ctx, said, p, d) ==> ctx.isMember(s.sender, ctx.group(p.statement.candidate))
    case Available(d) => forall p :: Names(ctx, said, p, d) ==> ctx.isGuarantor(s.sender, ctx.group(p.statement.candidate))
  }

  ghost predicate Names(ctx: Context, said: set<Signed>, p: Signed, d: Digest) {
    p in said && p.statement.Propose? && ctx.digest(p.statement.candidate) == d
  }

  /** An accusation is a proof: the authority itself made the statements it cites, and they
      are not compatible with the rules. */
  ghost predicate Proven(ctx: Context, said: set<Signed>, a: AuthorityId, m: Misbehavior) {
    match m
    case IssuedAndValidity(c, i, d, g) =>
      ctx.digest(c) == d && Signed(Propose(c), i, a) in said && Signed(Valid(d), g, a) in said
    case IssuedAndInvalidity(c, i, d, b) =>
      ctx.digest(c) == d && Signed(Propose(c), i, a) in said && Signed(Invalid(d), b, a) in said
    case ValidityAndInvalidity(d, g, b) =>
      Signed(Valid(d), g, a) in said && Signed(Invalid(d), b, a) in said
    case MultipleCandidates(first, second) =>
      && ctx.digest(first.0) != ctx.digest(second.0)
      && Signed(Propose(first.0), first.1, a) in said && Signed(Propose(second.0), second.1, a) in said
    case Unauthorized(s) => s in said && s.sender == a && !Entitled(ctx, said, s)
  }

  ghost predicate AllProven(ctx: Context, said: set<Signed>, t: Votes) {
    forall a :: a in t.misbehavior ==> Proven(ctx, said, a, t.misbehavior[a])
  }

  lemma MoreSaid(ctx: Context, said: set<Signed>, more: set<Signed>, t: Votes)
    requires said <= more && Backed(ctx, said, t) && AllProven(ctx, said, t)
    ensures Backed(ctx, more, t) && AllProven(ctx, more, t)
  {
    forall d | d in t.candidates ensures ProposedIn(ctx, more, d) {
      assert ProposedIn(ctx, said, d);
    }
    forall d, a | d in t.candidates && a in t.candidates[d].validity ensures BackedVote(ctx, more, t, d, a) {
      assert BackedVote(ctx, said, t, d, a);
    }
    forall d, a | d in t.candidates && a in t.candidates[d].availability ensures BackedAvailability(ctx, more, t, d, a) {
      assert BackedAvailability(ctx, said, t, d, a);
    }
    forall a | ProposalOf(t, a).Some? ensures BackedProposal(more, t, a) {
      assert BackedProposal(said, t, a);
    }
    forall a | a in t.misbehavior ensures Proven(ctx, more, a, t.misbehavior[a]) {
      assert Proven(ctx, said, a, t.misbehavior[a]);
      if t.misbehavior[a].Unauthorized? {
        EntitlementShrinks(ctx, said, more, t.misbehavior[a].statement);
      }
    }
  }

  lemma EntitlementShrinks(ctx: Context, said: set<Signed>, more: set<Signed>, s: Signed)
    requires said <= more
    ensures Entitled(ctx, more, s) ==> Entitled(ctx, said, s)
  {
    assert forall p, d :: Names(ctx, said, p, d) ==> Names(ctx, more, p, d);
  }

  // ---------- The invariant ----------

  ghost predicate Base(ctx: Context, said: set<Signed>, t: Votes) {
    Sound(ctx, t) && Backed(ctx, said, t) && AllProven(ctx, said, t)
  }

  /** Who proposed a candidate has a vote on it, and every candidate was issued by someone. */
  ghost predicate Issued(t: Votes) {
    && (forall a :: ProposalOf(t, a).Some? ==> HasVoted(t, a))
    && (forall d :: d in t.candidates ==> HasIssuer(t.candidates[d]))
  }

  ghost predicate HasVoted(t: Votes, a: AuthorityId) {
    ProposalOf(t, a).Some? ==>
      var d := ProposalOf(t, a).value.0; d in t.candidates && a in t.candidates[d].validity
  }

  ghost predicate HasIssuer(data: CandidateData) {
    exists a :: a in data.validity && data.validity[a].IssuedVote?
  }

  ghost predicate Inv(ctx: Context, said: set<Signed>, t: Votes) {
    Base(ctx, said, t) && Issued(t)
  }

  // ---------- Steps ----------

  /** What an outcome may change besides the vote itself: nothing. */
  ghost predicate KeepsRest(t: Votes, t': Votes) {
    t'.authorities == t.authorities && t'.misbehavior == t.misbehavior && t'.candidates.Keys == t.candidates.Keys
  }

  lemma CastIsBacked(ctx: Context, said: set<Signed>, t: Votes, from: AuthorityId, d: Digest, vote: Vote)
    requires Sound(ctx, t) && Backed(ctx, said, t) && d in t.candidates
    requires ctx.isMember(from, t.candidates[d].group) && from !in t.candidates[d].validity
    requires Signed(StatementFor(t.candidates[d], d, vote), vote.signature, from) in said
    requires vote.IssuedVote? ==> ProposalOf(t, from) == Some((d, vote.signature))
    ensures Backed(ctx, said, Recounted(ctx, t, d, Cast(t.candidates[d], from, vote)))
  {
    var t' := Recounted(ctx, t, d, Cast(t.candidates[d], from, vote));
    forall e, a | e in t'.candidates && a in t'.candidates[e].validity ensures BackedVote(ctx, said, t', e, a) {
      if !(e == d && a == from) {
        assert BackedVote(ctx, said, t, e, a);
      }
    }
    forall e, a | e in t'.candidates && a in t'.candidates[e].availability ensures BackedAvailability(ctx, said, t', e, a) {
      assert BackedAvailability(ctx, said, t, e, a);
    }
    forall a | ProposalOf(t', a).Some? ensures BackedProposal(said, t', a) {
      assert BackedProposal(said, t, a);
    }
  }

  lemma ValidityVoteKeepsBase(ctx: Context, said: set<Signed>, t: Votes, from: AuthorityId, d: Digest, vote: Vote)
    requires Base(ctx, said, t) && Injective(ctx)
    requires d in t.candidates ==> Signed(StatementFor(t.candidates[d], d, vote), vote.signature, from) in said
    requires vote.IssuedVote? && d in t.candidates ==>
               ctx.isMember(from, t.candidates[d].group) && (from in t.candidates[d].validity || ProposalOf(t, from) == Some((d, vote.signature)))
    ensures var o := ValidityVote(ctx, t, from, d, vote);
            && Base(ctx, said, o.votes) && KeepsRest(t, o.votes)
            && (o.misbehavior.Some? ==> Proven(ctx, said, from, o.misbehavior.value))
  {
    if d in t.candidates {
      var data := t.candidates[d];
      if !ctx.isMember(from, data.group) {
        OutsiderIsNotEntitled(ctx, said, t, d, Signed(StatementFor(data, d, vote), vote.signature, from));
      } else if from in data.validity {
        assert BackedVote(ctx, said, t, d, from);
      } else {
        CastIsSound(ctx, d, data, from, vote);
        CastIsBacked(ctx, said, t, from, d, vote);
        RecountedIsSound(ctx, t, d, Cast(data, from, vote));
      }
    }
  }

  lemma OutsiderIsNotEntitled(ctx: Context, said: set<Signed>, t: Votes, d: Digest, s: Signed)
    requires Sound(ctx, t) && Injective(ctx) && Backed(ctx, said, t) && d in t.candidates
    requires s.statement == Valid(d) || s.statement == Invalid(d) || s.statement == Available(d)
    requires if s.statement.Available? then !ctx.isGuarantor(s.sender, t.candidates[d].group) else !ctx.isMember(s.sender, t.candidates[d].group)
    ensures !Entitled(ctx, said, s)
  {
    assert ProposedIn(ctx, said, d);
    var p :| p in said && p.statement.Propose? && ctx.digest(p.statement.candidate) == d;
    assert Names(ctx, said, p, d) && p.statement.candidate == t.candidates[d].candidate;
  }

  lemma AvailabilityIsBacked(ctx: Context, said: set<Signed>, t: Votes, from: AuthorityId, d: Digest, signature: Signature)
    requires Sound(ctx, t) && Backed(ctx, said, t) && d in t.candidates
    requires ctx.isGuarantor(from, t.candidates[d].group) && Signed(Available(d), signature, from) in said
    ensures var data := t.candidates[d];
            Backed(ctx, said, Recounted(ctx, t, d, data.(availability := data.availability[from := signature])))
  {
    var data := t.candidates[d];
    var t' := Recounted(ctx, t, d, data.(availability := data.availability[from := signature]));
    forall e, a | e in t'.candidates && a in t'.candidates[e].validity ensures BackedVote(ctx, said, t', e, a) {
      assert BackedVote(ctx, said, t, e, a);
    }
    forall e, a | e in t'.candidates && a in t'.candidates[e].availability ensures BackedAvailability(ctx, said, t', e, a) {
      if !(e == d && a == from) {
        assert BackedAvailability(ctx, said, t, e, a);
      }
    }
    forall a | ProposalOf(t', a).Some? ensures BackedProposal(said, t', a) {
      assert BackedProposal(said, t, a);
    }
  }

  lemma AvailabilityVoteKeepsBase(ctx: Context, said: set<Signed>, t: Votes, from: AuthorityId, d: Digest, signature: Signature)
    requires Base(ctx, said, t) && Injective(ctx) && Signed(Available(d), signature, from) in said
    ensures var o := AvailabilityVote(ctx, t, from, d, signature);
            && Base(ctx, said, o.votes) && KeepsRest(t, o.votes)
            && (o.misbehavior.Some? ==> Proven(ctx, said, from, o.misbehavior.value))
  {
    if d in t.candidates {
      var data := t.candidates[d];
      if !ctx.isGuarantor(from, data.group) {
        OutsiderIsNotEntitled(ctx, said, t, d, Signed(Available(d), signature, from));
      } else {
        var data' := data.(availability := data.availability[from := signature]);
        AvailabilityIsBacked(ctx, said, t, from, d, signature);
        RecountedIsSound(ctx, t, d, data');
      }
    }
  }

  lemma ProposedKeepsBase(ctx: Context, said: set<Signed>, t: Votes, from: AuthorityId, candidate: Candidate, signature: Signature)
    requires Base(ctx, said, t) && Injective(ctx)
    requires ctx.isMember(from, ctx.group(candidate)) && ProposalOf(t, from).None?
    requires Signed(Propose(candidate), signature, from) in said
    ensures Base(ctx, said, Proposed(ctx, t, from, candidate, signature))
  {
    ProposedIsSound(ctx, t, from, candidate, signature);
    ProposedIsBacked(ctx, said, t, from, candidate, signature);
  }

  lemma ProposedIsBacked(ctx: Context, said: set<Signed>, t: Votes, from: AuthorityId, candidate: Candidate, signature: Signature)
    requires Sound(ctx, t) && Backed(ctx, said, t) && Injective(ctx)
    requires ProposalOf(t, from).None? && Signed(Propose(candidate), signature, from) in said
    ensures Backed(ctx, said, Proposed(ctx, t, from, candidate, signature))
  {
    var t', d := Proposed(ctx, t, from, candidate, signature), ctx.digest(candidate);
    forall e, a | e in t'.candidates && a in t'.candidates[e].validity ensures BackedVote(ctx, said, t', e, a) {
      assert BackedVote(ctx, said, t, e, a);
    }
    forall e, a | e in t'.candidates && a in t'.candidates[e].availability ensures BackedAvailability(ctx, said, t', e, a) {
      assert BackedAvailability(ctx, said, t, e, a);
    }
    forall a | ProposalOf(t', a).Some? ensures BackedProposal(said, t', a) {
      if a != from {
        assert BackedProposal(said, t, a);
      }
    }
    forall e | e in t'.candidates ensures ProposedIn(ctx, said, e) {
      if e == d {
        assert Names(ctx, said, Signed(Propose(candidate), signature, from), d);
      } else {
        assert ProposedIn(ctx, said, e);
      }
    }
  }

  // ----- issuance -----

  /** A vote never removes a vote, so issuers stay. */
  lemma ValidityVoteKeepsIssuers(ctx: Context, t: Votes, from: AuthorityId, d: Digest, vote: Vote, e: Digest)
    requires Sound(ctx, t) && e in t.candidates && HasIssuer(t.candidates[e])
    requires vote.IssuedVote? && d in t.candidates ==> ctx.isMember(from, t.candidates[d].group)
    ensures var t' := ValidityVote(ctx, t, from, d, vote).votes; e in t'.candidates && HasIssuer(t'.candidates[e])
  {
    var a :| a in t.candidates[e].validity && t.candidates[e].validity[a].IssuedVote?;
    var t' := ValidityVote(ctx, t, from, d, vote).votes;
    assert a in t'.candidates[e].validity && t'.candidates[e].validity[a].IssuedVote?;
  }

  lemma ValidityVoteKeepsVoters(ctx: Context, t: Votes, from: AuthorityId, d: Digest, vote: Vote)
    requires Sound(ctx, t)
    requires vote.IssuedVote? && d in t.candidates ==> ctx.isMember(from, t.candidates[d].group)
    ensures var t' := ValidityVote(ctx, t, from, d, vote).votes;
            && t'.authorities == t.authorities && t'.candidates.Keys == t.candidates.Keys
            && (forall e :: e in t.candidates ==> t.candidates[e].validity.Keys <= t'.candidates[e].validity.Keys)
            && (d in t.candidates && ctx.isMember(from, t.candidates[d].group) ==> from in t'.candidates[d].validity)
  {
  }

  lemma VoteKeepsIssued(ctx: Context, t: Votes, from: AuthorityId, d: Digest, vote: Vote)
    requires Sound(ctx, t) && Issued(t) && !vote.IssuedVote?
    ensures Issued(ValidityVote(ctx, t, from, d, vote).votes)
  {
    var t' := ValidityVote(ctx, t, from, d, vote).votes;
    ValidityVoteKeepsVoters(ctx, t, from, d, vote);
    forall a | ProposalOf(t', a).Some? ensures HasVoted(t', a) {
      assert HasVoted(t, a);
    }
    forall e | e in t'.candidates ensures HasIssuer(t'.candidates[e]) {
      ValidityVoteKeepsIssuers(ctx, t, from, d, vote, e);
    }
  }

  lemma AvailabilityKeepsIssued(ctx: Context, t: Votes, from: AuthorityId, d: Digest, signature: Signature)
    requires Sound(ctx, t) && Issued(t)
    ensures Issued(AvailabilityVote(ctx, t, from, d, signature).votes)
  {
    var t' := AvailabilityVote(ctx, t, from, d, signature).votes;
    forall a | ProposalOf(t', a).Some? ensures HasVoted(t', a) {
      assert HasVoted(t, a);
    }
    forall e | e in t'.candidates ensures HasIssuer(t'.candidates[e]) {
      assert HasIssuer(t.candidates[e]);
    }
  }

  lemma FirstProposalKeepsIssued(ctx: Context, t: Votes, from: AuthorityId, c: Candidate, signature: Signature)
    requires Sound(ctx, t) && Injective(ctx) && Issued(t)
    requires ctx.isMember(from, ctx.group(c)) && ProposalOf(t, from).None?
    ensures Issued(ImportCandidate(ctx, t, from, c, signature).votes)
  {
    var d, t1 := ctx.digest(c), Proposed(ctx, t, from, c, signature);
    ProposedIsSound(ctx, t, from, c, signature);
    ProposerIsMember(ctx, t1, from, c);
    var t' := ValidityVote(ctx, t1, from, d, IssuedVote(signature)).votes;
    ValidityVoteKeepsVoters(ctx, t1, from, d, IssuedVote(signature));
    assert forall a :: ProposalOf(t', a).Some? ==> HasVoted(t', a) by {
      ProposersHaveVoted(ctx, t, t', from, c, signature);
    }
    assert forall e :: e in t'.candidates ==> HasIssuer(t'.candidates[e]) by {
      forall e | e in t'.candidates ensures HasIssuer(t'.candidates[e]) {
        FirstProposalKeepsIssuer(ctx, t, from, c, signature, e);
      }
    }
  }

  lemma ProposersHaveVoted(ctx: Context, t: Votes, t': Votes, from: AuthorityId, c: Candidate, signature: Signature)
    requires Issued(t) && t'.authorities == Proposed(ctx, t, from, c, signature).authorities
    requires ctx.digest(c) in t'.candidates && from in t'.candidates[ctx.digest(c)].validity
    requires forall e :: e in t.candidates ==> e in t'.candidates && t.candidates[e].validity.Keys <= t'.candidates[e].validity.Keys
    ensures forall a :: ProposalOf(t', a).Some? ==> HasVoted(t', a)
  {
    forall a | ProposalOf(t', a).Some? ensures HasVoted(t', a) {
      if a != from {
        assert HasVoted(t, a);
      }
    }
  }

  lemma FirstProposalKeepsIssuer(ctx: Context, t: Votes, from: AuthorityId, c: Candidate, signature: Signature, e: Digest)
    requires Sound(ctx, t) && Injective(ctx) && Issued(t)
    requires ctx.isMember(from, ctx.group(c)) && ProposalOf(t, from).None?
    requires e in ImportCandidate(ctx, t, from, c, signature).votes.candidates
    ensures HasIssuer(ImportCandidate(ctx, t, from, c, signature).votes.candidates[e])
  {
    var d, t1 := ctx.digest(c), Proposed(ctx, t, from, c, signature);
    ProposedIsSound(ctx, t, from, c, signature);
    ProposerIsMember(ctx, t1, from, c);
    if e in t.candidates {
      assert t1.candidates[e] == t.candidates[e];
      ValidityVoteKeepsIssuers(ctx, t1, from, d, IssuedVote(signature), e);
    } else {
      assert ValidityVote(ctx, t1, from, d, IssuedVote(signature)).votes.candidates[e].validity[from].IssuedVote?;
    }
  }

  lemma ProposalKeepsInv(ctx: Context, said: set<Signed>, t: Votes, from: AuthorityId, c: Candidate, signature: Signature)
    requires Inv(ctx, said, t) && Injective(ctx)
    requires Signed(Propose(c), signature, from) in said
    ensures var o := ImportCandidate(ctx, t, from, c, signature);
            && Inv(ctx, said, o.votes) && o.votes.misbehavior == t.misbehavior
            && (o.misbehavior.Some? ==> Proven(ctx, said, from, o.misbehavior.value))
  {
    var d := ctx.digest(c);
    if ctx.isMember(from, ctx.group(c)) {
      match ProposalOf(t, from) {
        case Some(earlier) =>
          assert BackedProposal(said, t, from) && HasVoted(t, from);
          if earlier.0 == d {
            ProposerIsMember(ctx, t, from, c);
            ValidityVoteKeepsBase(ctx, said, t, from, d, IssuedVote(signature));
          }
        case None =>
          FirstProposalKeepsIssued(ctx, t, from, c, signature);
          ProposedKeepsBase(ctx, said, t, from, c, signature);
          var t1 := Proposed(ctx, t, from, c, signature);
          ProposerIsMember(ctx, t1, from, c);
          ValidityVoteKeepsBase(ctx, said, t1, from, d, IssuedVote(signature));
      }
    }
  }

  lemma ConsiderKeepsInv(ctx: Context, said: set<Signed>, t: Votes, s: Signed)
    requires Inv(ctx, said, t) && Injective(ctx) && s in said
    ensures var o := Consider(ctx, t, s);
            && Inv(ctx, said, o.votes) && o.votes.misbehavior == t.misbehavior
            && (o.misbehavior.Some? ==> Proven(ctx, said, s.sender, o.misbehavior.value))
  {
    match s.statement {
      case Propose(c) =>
        ProposalKeepsInv(ctx, said, t, s.sender, c, s.signature);
      case Valid(d) =>
        ValidityVoteKeepsBase(ctx, said, t, s.sender, d, ValidVote(s.signature));
        VoteKeepsIssued(ctx, t, s.sender, d, ValidVote(s.signature));
      case Invalid(d) =>
        ValidityVoteKeepsBase(ctx, said, t, s.sender, d, InvalidVote(s.signature));
        VoteKeepsIssued(ctx, t, s.sender, d, InvalidVote(s.signature));
      case Available(d) =>
        AvailabilityVoteKeepsBase(ctx, said, t, s.sender, d, s.signature);
        AvailabilityKeepsIssued(ctx, t, s.sender, d, s.signature);
    }
  }

  // ----- bookkeeping -----

  lemma SameVotesKeepInv(ctx: Context, said: set<Signed>, t: Votes, t': Votes)
    requires Inv(ctx, said, t) && SameVotes(t, t') && AllProven(ctx, said, t')
    ensures Inv(ctx, said, t')
  {
    SameVotesStaySound(ctx, t, t');
    SameVotesStayBacked(ctx, said, t, t');
    forall a | ProposalOf(t', a).Some? ensures HasVoted(t', a) {
      assert HasVoted(t, a);
    }
  }

  lemma SameVotesStayBacked(ctx: Context, said: set<Signed>, t: Votes, t': Votes)
    requires Backed(ctx, said, t) && SameVotes(t, t')
    ensures Backed(ctx, said, t')
  {
    forall e, a | e in t'.candidates && a in t'.candidates[e].validity ensures BackedVote(ctx, said, t', e, a) {
      assert BackedVote(ctx, said, t, e, a);
    }
    forall e, a | e in t'.candidates && a in t'.candidates[e].availability ensures BackedAvailability(ctx, said, t', e, a) {
      assert BackedAvailability(ctx, said, t, e, a);
    }
    forall a | ProposalOf(t', a).Some? ensures BackedProposal(said, t', a) {
      assert BackedProposal(said, t, a);
    }
  }

  lemma SettledKeepsInv(ctx: Context, said: set<Signed>, o: Outcome, s: Signed, from: Option<AuthorityId>)
    requires Inv(ctx, said, o.votes)
    requires o.misbehavior.Some? ==> Proven(ctx, said, s.sender, o.misbehavior.value)
    ensures Inv(ctx, said, Settled(o, s, from))
  {
    SettledHasSameVotes(o, s, from);
    SettledIsProven(ctx, said, o, s, from);
    SameVotesKeepInv(ctx, said, o.votes, Settled(o, s, from));
  }

  lemma SettledIsProven(ctx: Context, said: set<Signed>, o: Outcome, s: Signed, from: Option<AuthorityId>)
    requires AllProven(ctx, said, o.votes)
    requires o.misbehavior.Some? ==> Proven(ctx, said, s.sender, o.misbehavior.value)
    ensures AllProven(ctx, said, Settled(o, s, from))
  {
  }

  /** Importing any statement keeps the invariant, with the statement added to what was said. */
  lemma ImportKeepsInv(ctx: Context, said: set<Signed>, t: Votes, s: Signed, from: Option<AuthorityId>)
    requires Inv(ctx, said, t) && Injective(ctx)
    ensures Inv(ctx, said + {s}, Imported(ctx, t, s, from))
  {
    assert Inv(ctx, said + {s}, t) by {
      MoreSaid(ctx, said, said + {s}, t);
    }
    ConsiderKeepsInv(ctx, said + {s}, t, s);
    SettledKeepsInv(ctx, said + {s}, Consider(ctx, t, s), s, from);
  }
}
