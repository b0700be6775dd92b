/** The statement table stays sound under every import, and its cached counts of includable
    candidates agree with a recount. */
module TableCounts {
  import opened Primitives
  import opened Statements

  /** Nobody voted against the candidate, and it has as many votes of both kinds as its group needs. */
  ghost predicate Approved(ctx: Context, data: CandidateData) {
    && (forall a :: a in data.validity ==> !data.validity[a].InvalidVote?)
    && |data.validity| >= ctx.requisite(data.group).0
    && |data.availability| >= ctx.requisite(data.group).1
  }

  /** The marks that the table keeps stand for the votes against a candidate. */
  lemma IncludableIsApproved(ctx: Context, d: Digest, data: CandidateData)
    requires SoundCandidate(ctx, d, data)
    ensures Includable(ctx, data) <==> Approved(ctx, data)
  {
    assert forall a :: a in Elems(data.badBy) <==> a in BadVoters(data.validity);
    if data.badBy != [] {
      assert data.badBy[0] in Elems(data.badBy);
    } else {
      assert forall a :: a in data.validity ==> a !in BadVoters(data.validity);
    }
  }

  /** The approved candidates of a group, counted afresh from the votes. */
  ghost function Live(ctx: Context, t: Votes, g: GroupId): set<Digest> {
    set d | d in t.candidates && t.candidates[d].group == g && Approved(ctx, t.candidates[d])
  }

  ghost predicate CountedAt(ctx: Context, t: Votes, g: GroupId) {
    && (g in t.includable <==> Live(ctx, t, g) != {})
    && (g in t.includable ==> t.includable[g] == |Live(ctx, t, g)|)
  }

  ghost predicate Counted(ctx: Context, t: Votes) {
    forall g :: CountedAt(ctx, t, g)
  }

  /** A candidate somebody may propose needs at least one vote of some kind. */
  ghost predicate SomeVoteNeeded(ctx: Context) {
    forall a, c :: ctx.isMember(a, ctx.group(c)) ==> ctx.requisite(ctx.group(c)) != (0, 0)
  }

  lemma RecountedIsCounted(ctx: Context, t: Votes, d: Digest, data: CandidateData)
    requires Sound(ctx, t) && d in t.candidates && SoundCandidate(ctx, d, data) && data.group == t.candidates[d].group
    requires Counted(ctx, t)
    ensures Counted(ctx, Recounted(ctx, t, d, data))
  {
    forall g ensures CountedAt(ctx, Recounted(ctx, t, d, data), g) {
      assert CountedAt(ctx, t, g);
      LiveAfterRecount(ctx, t, d, data, g);
    }
  }

  lemma LiveAfterRecount(ctx: Context, t: Votes, d: Digest, data: CandidateData, g: GroupId)
    requires Sound(ctx, t) && d in t.candidates && SoundCandidate(ctx, d, data) && data.group == t.candidates[d].group
    ensures var live, live' := Live(ctx, t, g), Live(ctx, Recounted(ctx, t, d, data), g);
            && live' == (if g != data.group then live else if Includable(ctx, data) then live + {d} else live - {d})
            && (g == data.group ==> (d in live <==> Includable(ctx, t.candidates[d])))
  {
    assert SoundCandidate(ctx, d, t.candidates[d]);
    IncludableIsApproved(ctx, d, t.candidates[d]);
    IncludableIsApproved(ctx, d, data);
  }

  lemma ProposedIsCounted(ctx: Context, t: Votes, from: AuthorityId, candidate: Candidate, signature: Signature)
    requires Counted(ctx, t) && SomeVoteNeeded(ctx) && ctx.isMember(from, ctx.group(candidate))
    ensures Counted(ctx, Proposed(ctx, t, from, candidate, signature))
  {
    var t' := Proposed(ctx, t, from, candidate, signature);
    forall g ensures CountedAt(ctx, t', g) {
      assert CountedAt(ctx, t, g);
      assert Live(ctx, t', g) == Live(ctx, t, g);
    }
  }

  // ---------- Soundness ----------

  lemma RecountedIsSound(ctx: Context, t: Votes, d: Digest, data: CandidateData)
    requires Sound(ctx, t) && d in t.candidates && SoundCandidate(ctx, d, data)
    ensures Sound(ctx, Recounted(ctx, t, d, data))
  {
  }

  /** Two tables that differ at most in the accusations and in what peers are known to have seen. */
  ghost predicate SameVotes(t: Votes, t': Votes) {
    && t'.candidates == t.candidates && t'.includable == t.includable
    && forall a :: ProposalOf(t', a) == ProposalOf(t, a)
  }

  lemma SameVotesStaySound(ctx: Context, t: Votes, t': Votes)
    requires Sound(ctx, t) && SameVotes(t, t')
    ensures Sound(ctx, t')
  {
    forall a | a in t'.authorities && t'.authorities[a].proposal.Some? ensures t'.authorities[a].proposal.value.0 in t'.candidates {
      assert ProposalOf(t', a) == ProposalOf(t, a);
    }
  }

  lemma SameVotesStayCounted(ctx: Context, t: Votes, t': Votes)
    requires Counted(ctx, t) && SameVotes(t, t')
    ensures Counted(ctx, t')
  {
    forall g ensures CountedAt(ctx, t', g) {
      assert CountedAt(ctx, t, g);
      assert Live(ctx, t', g) == Live(ctx, t, g);
    }
  }

  lemma SettledHasSameVotes(o: Outcome, s: Signed, from: Option<AuthorityId>)
    ensures SameVotes(o.votes, Settled(o, s, from))
  {
  }

  lemma ValidityVoteIsSound(ctx: Context, t: Votes, from: AuthorityId, d: Digest, vote: Vote)
    requires Sound(ctx, t)
    requires vote.IssuedVote? && d in t.candidates ==> ctx.isMember(from, t.candidates[d].group)
    ensures Sound(ctx, ValidityVote(ctx, t, from, d, vote).votes)
    ensures Counted(ctx, t) ==> Counted(ctx, ValidityVote(ctx, t, from, d, vote).votes)
  {
    if d in t.candidates && ctx.isMember(from, t.candidates[d].group) && from !in t.candidates[d].validity {
      var data := Cast(t.candidates[d], from, vote);
      CastIsSound(ctx, d, t.candidates[d], from, vote);
      RecountedIsSound(ctx, t, d, data);
      if Counted(ctx, t) {
        RecountedIsCounted(ctx, t, d, data);
      }
    }
  }

  lemma AvailabilityVoteIsSound(ctx: Context, t: Votes, from: AuthorityId, d: Digest, signature: Signature)
    requires Sound(ctx, t)
    ensures Sound(ctx, AvailabilityVote(ctx, t, from, d, signature).votes)
    ensures Counted(ctx, t) ==> Counted(ctx, AvailabilityVote(ctx, t, from, d, signature).votes)
  {
    if d in t.candidates && ctx.isGuarantor(from, t.candidates[d].group) {
      var data := t.candidates[d].(availability := t.candidates[d].availability[from := signature]);
      RecountedIsSound(ctx, t, d, data);
      if Counted(ctx, t) {
        RecountedIsCounted(ctx, t, d, data);
      }
    }
  }

  lemma ImportCandidateIsSound(ctx: Context, t: Votes, from: AuthorityId, c: Candidate, signature: Signature)
    requires Sound(ctx, t) && Injective(ctx)
    ensures Sound(ctx, ImportCandidate(ctx, t, from, c, signature).votes)
    ensures Counted(ctx, t) && SomeVoteNeeded(ctx) ==> Counted(ctx, ImportCandidate(ctx, t, from, c, signature).votes)
  {
    if ctx.isMember(from, ctx.group(c)) {
      var d, vote := ctx.digest(c), IssuedVote(signature);
      match ProposalOf(t, from) {
        case Some(earlier) =>
          if earlier.0 == d {
            ProposerIsMember(ctx, t, from, c);
            ValidityVoteIsSound(ctx, t, from, d, vote);
          }
        case None =>
          var t' := Proposed(ctx, t, from, c, signature);
          ProposedIsSound(ctx, t, from, c, signature);
          ProposerIsMember(ctx, t', from, c);
          ValidityVoteIsSound(ctx, t', from, d, vote);
          if Counted(ctx, t) && SomeVoteNeeded(ctx) {
            ProposedIsCounted(ctx, t, from, c, signature);
          }
      }
    }
  }

  /** Whatever is imported, no panic becomes reachable and the counts stay right. */
  lemma ImportIsSound(ctx: Context, t: Votes, s: Signed, from: Option<AuthorityId>)
    requires Sound(ctx, t) && Injective(ctx)
    ensures Sound(ctx, Imported(ctx, t, s, from))
    ensures Counted(ctx, t) && SomeVoteNeeded(ctx) ==> Counted(ctx, Imported(ctx, t, s, from))
  {
    match s.statement {
      case Propose(c) => ImportCandidateIsSound(ctx, t, s.sender, c, s.signature);
      case Valid(d) => ValidityVoteIsSound(ctx, t, s.sender, d, ValidVote(s.signature));
      case Invalid(d) => ValidityVoteIsSound(ctx, t, s.sender, d, InvalidVote(s.signature));
      case Available(d) => AvailabilityVoteIsSound(ctx, t, s.sender, d, s.signature);
    }
    var o := Consider(ctx, t, s);
    SettledHasSameVotes(o, s, from);
    SameVotesStaySound(ctx, o.votes, Settled(o, s, from));
    if Counted(ctx, o.votes) {
      SameVotesStayCounted(ctx, o.votes, Settled(o, s, from));
    }
  }
}
