/** What one statement does to the votes, told without the table's own functions, and what the
    table answers. */
module VoteLaws {
  import opened Primitives
  import opened Statements
  import opened TableCounts
  import opened Gossip

  // ---------- The votes after a statement ----------

  ghost function ValidityOf(t: Votes, d: Digest, a: AuthorityId): Option<Vote> {
    if d in t.candidates && a in t.candidates[d].validity then Some(t.candidates[d].validity[a]) else None
  }

  ghost function AvailabilityOf(t: Votes, d: Digest, a: AuthorityId): Option<Signature> {
    if d in t.candidates && a in t.candidates[d].availability then Some(t.candidates[d].availability[a]) else None
  }

  /** The vote that a statement casts on validity. */
  ghost function VoteOf(s: Signed): Option<Vote> {
    match s.statement
    case Propose(_) => Some(IssuedVote(s.signature))
    case Valid(_) => Some(ValidVote(s.signature))
    case Invalid(_) => Some(InvalidVote(s.signature))
    case Available(_) => None
  }

  /** The sender may make the statement, the candidate is known or proposed by it, and a proposal is
      not the sender's second. */
  ghost predicate Admitted(ctx: Context, t: Votes, s: Signed) {
    var d := DigestOf(ctx, s);
    match s.statement
    case Propose(c) => ctx.isMember(s.sender, ctx.group(c)) && (ProposalOf(t, s.sender).Some? ==> ProposalOf(t, s.sender).value.0 == d)
    case Available(_) => d in t.candidates && ctx.isGuarantor(s.sender, t.candidates[d].group)
    case _ => d in t.candidates && ctx.isMember(s.sender, t.candidates[d].group)
  }

  /** The first vote of an authority on a candidate's validity counts, the last one on its
      availability, and nothing else changes. */
  ghost predicate Voted(ctx: Context, t: Votes, s: Signed, t': Votes, d: Digest, a: AuthorityId) {
    var here := Admitted(ctx, t, s) && d == DigestOf(ctx, s) && a == s.sender;
    && ValidityOf(t', d, a) == (if here && ValidityOf(t, d, a).None? then VoteOf(s) else ValidityOf(t, d, a))
    && AvailabilityOf(t', d, a) == (if here && s.statement.Available? then Some(s.signature) else AvailabilityOf(t, d, a))
  }

  lemma ValidityEffect(ctx: Context, t: Votes, from: AuthorityId, d: Digest, vote: Vote, e: Digest, a: AuthorityId)
    requires Sound(ctx, t) && (vote.IssuedVote? && d in t.candidates ==> ctx.isMember(from, t.candidates[d].group))
    ensures var t' := ValidityVote(ctx, t, from, d, vote).votes;
            && AvailabilityOf(t', e, a) == AvailabilityOf(t, e, a)
            && ValidityOf(t', e, a) == (if d in t.candidates && ctx.isMember(from, t.candidates[d].group) && e == d && a == from && ValidityOf(t, e, a).None?
                                        then Some(vote) else ValidityOf(t, e, a))
  {
  }

  lemma ProposalEffect(ctx: Context, t: Votes, s: Signed, d: Digest, a: AuthorityId)
    requires Sound(ctx, t) && Injective(ctx) && s.statement.Propose?
    ensures Voted(ctx, t, s, Consider(ctx, t, s).votes, d, a)
  {
    var c := s.statement.candidate;
    if Admitted(ctx, t, s) {
      if ProposalOf(t, s.sender).Some? {
        ProposerIsMember(ctx, t, s.sender, c);
        ValidityEffect(ctx, t, s.sender, ctx.digest(c), IssuedVote(s.signature), d, a);
      } else {
        FirstProposalEffect(ctx, t, s, d, a);
      }
    }
  }

  lemma FirstProposalEffect(ctx: Context, t: Votes, s: Signed, d: Digest, a: AuthorityId)
    requires Sound(ctx, t) && Injective(ctx) && s.statement.Propose? && Admitted(ctx, t, s) && ProposalOf(t, s.sender).None?
    ensures Voted(ctx, t, s, Consider(ctx, t, s).votes, d, a)
  {
    var c := s.statement.candidate;
    var t1 := Proposed(ctx, t, s.sender, c, s.signature);
    ProposedIsSound(ctx, t, s.sender, c, s.signature);
    ProposerIsMember(ctx, t1, s.sender, c);
    assert ctx.digest(c) in t1.candidates;
    assert ValidityOf(t1, d, a) == ValidityOf(t, d, a) && AvailabilityOf(t1, d, a) == AvailabilityOf(t, d, a);
    ValidityEffect(ctx, t1, s.sender, ctx.digest(c), IssuedVote(s.signature), d, a);
  }

  /** The votes on record after any statement, for every candidate and every authority. */
  lemma ImportEffect(ctx: Context, t: Votes, s: Signed, from: Option<AuthorityId>, d: Digest, a: AuthorityId)
    requires Sound(ctx, t) && Injective(ctx)
    ensures Voted(ctx, t, s, Imported(ctx, t, s, from), d, a)
  {
    assert Voted(ctx, t, s, Consider(ctx, t, s).votes, d, a) by {
      match s.statement {
        case Propose(_) => ProposalEffect(ctx, t, s, d, a);
        case Valid(e) => ValidityEffect(ctx, t, s.sender, e, ValidVote(s.signature), d, a);
        case Invalid(e) => ValidityEffect(ctx, t, s.sender, e, InvalidVote(s.signature), d, a);
        case Available(_) =>
      }
    }
    SettledHasSameVotes(Consider(ctx, t, s), s, from);
  }

  // ---------- Summaries ----------

  /** A summary counts the votes for a candidate, the votes on its availability, and says whether
      there are votes against it. */
  ghost predicate Tells(t: Votes, summary: Summary) {
    var d := summary.candidate;
    && d in t.candidates
    && var data := t.candidates[d];
       && summary.group == data.group
       && summary.validityVotes == |set a | a in data.validity && !data.validity[a].InvalidVote?|
       && summary.availabilityVotes == |data.availability|
       && (summary.signalledBad <==> exists a :: a in data.validity && data.validity[a].InvalidVote?)
  }

  lemma SummaryTells(ctx: Context, d: Digest, data: CandidateData, t: Votes)
    requires SoundCandidate(ctx, d, data) && d in t.candidates && t.candidates[d] == data && |data.badBy| <= |data.validity|
    ensures Tells(t, Summarize(data, d))
  {
    var good := set a | a in data.validity && !data.validity[a].InvalidVote?;
    var bad := BadVoters(data.validity);
    assert good + bad == data.validity.Keys && good !! bad;
    assert |good + bad| == |good| + |bad|;
    DistinctCount(data.badBy);
    if data.badBy != [] {
      assert data.badBy[0] in Elems(data.badBy);
    } else {
      assert forall a :: a in data.validity ==> a !in bad;
    }
  }

  /** A statement gets a summary if and only if it adds a vote, and the summary is of its candidate
      with that vote. */
  ghost predicate Summarized(ctx: Context, t: Votes, s: Signed, o: Outcome) {
    && (o.summary.Some? <==> Admitted(ctx, t, s) && (s.statement.Available? || ValidityOf(t, DigestOf(ctx, s), s.sender).None?))
    && (o.summary.Some? ==> o.summary.value.candidate == DigestOf(ctx, s) && Tells(o.votes, o.summary.value))
  }

  lemma ValiditySummary(ctx: Context, t: Votes, from: AuthorityId, d: Digest, vote: Vote)
    requires Sound(ctx, t) && (vote.IssuedVote? && d in t.candidates ==> ctx.isMember(from, t.candidates[d].group))
    ensures var o := ValidityVote(ctx, t, from, d, vote);
            && (o.summary.Some? <==> d in t.candidates && ctx.isMember(from, t.candidates[d].group) && ValidityOf(t, d, from).None?)
            && (o.summary.Some? ==> o.summary.value.candidate == d && Tells(o.votes, o.summary.value))
  {
    if d in t.candidates && ctx.isMember(from, t.candidates[d].group) && from !in t.candidates[d].validity {
      var data := Cast(t.candidates[d], from, vote);
      CastIsSound(ctx, d, t.candidates[d], from, vote);
      BadAreVoters(ctx, d, data);
      SummaryTells(ctx, d, data, Recounted(ctx, t, d, data));
    }
  }

  lemma AvailabilitySummary(ctx: Context, t: Votes, from: AuthorityId, d: Digest, signature: Signature)
    requires Sound(ctx, t)
    ensures var o := AvailabilityVote(ctx, t, from, d, signature);
            && (o.summary.Some? <==> d in t.candidates && ctx.isGuarantor(from, t.candidates[d].group))
            && (o.summary.Some? ==> o.summary.value.candidate == d && Tells(o.votes, o.summary.value))
  {
    if d in t.candidates && ctx.isGuarantor(from, t.candidates[d].group) {
      var data := t.candidates[d].(availability := t.candidates[d].availability[from := signature]);
      BadAreVoters(ctx, d, t.candidates[d]);
      SummaryTells(ctx, d, data, Recounted(ctx, t, d, data));
    }
  }

  lemma ProposalSummary(ctx: Context, t: Votes, s: Signed)
    requires Sound(ctx, t) && Injective(ctx) && s.statement.Propose?
    ensures Summarized(ctx, t, s, Consider(ctx, t, s))
  {
    var c := s.statement.candidate;
    if Admitted(ctx, t, s) {
      if ProposalOf(t, s.sender).Some? {
        ProposerIsMember(ctx, t, s.sender, c);
        ValiditySummary(ctx, t, s.sender, ctx.digest(c), IssuedVote(s.signature));
      } else {
        var t1 := Proposed(ctx, t, s.sender, c, s.signature);
        ProposedIsSound(ctx, t, s.sender, c, s.signature);
        ProposerIsMember(ctx, t1, s.sender, c);
        ValiditySummary(ctx, t1, s.sender, ctx.digest(c), IssuedVote(s.signature));
        assert ValidityOf(t1, ctx.digest(c), s.sender) == ValidityOf(t, ctx.digest(c), s.sender);
      }
    }
  }

  lemma StatementIsSummarized(ctx: Context, t: Votes, s: Signed)
    requires Sound(ctx, t) && Injective(ctx)
    ensures Summarized(ctx, t, s, Consider(ctx, t, s))
  {
    match s.statement {
      case Propose(_) => ProposalSummary(ctx, t, s);
      case Valid(d) => ValiditySummary(ctx, t, s.sender, d, ValidVote(s.signature));
      case Invalid(d) => ValiditySummary(ctx, t, s.sender, d, InvalidVote(s.signature));
      case Available(d) => AvailabilitySummary(ctx, t, s.sender, d, s.signature);
    }
  }

  lemma ImportIsSummarized(ctx: Context, t: Votes, s: Signed, from: Option<AuthorityId>)
    requires Sound(ctx, t) && Injective(ctx)
    ensures var summary := Consider(ctx, t, s).summary; summary.Some? ==> Tells(Imported(ctx, t, s, from), summary.value)
  {
    StatementIsSummarized(ctx, t, s);
    SettledHasSameVotes(Consider(ctx, t, s), s, from);
  }

  // ---------- Accusations ----------

  ghost predicate SameKind(v: Vote, w: Vote) {
    (v.IssuedVote? <==> w.IssuedVote?) && (v.ValidVote? <==> w.ValidVote?)
  }

  /** The sender has no say in the group of a known candidate, proposes a second candidate, or has
      given another kind of vote on this one. */
  ghost predicate Offends(ctx: Context, t: Votes, s: Signed) {
    var d := DigestOf(ctx, s);
    || ((s.statement.Propose? || d in t.candidates) && !Admitted(ctx, t, s))
    || (VoteOf(s).Some? && ValidityOf(t, d, s.sender).Some? && !SameKind(VoteOf(s).value, ValidityOf(t, d, s.sender).value))
  }

  lemma VoteAccusesIff(ctx: Context, t: Votes, from: AuthorityId, d: Digest, vote: Vote)
    requires Sound(ctx, t) && (vote.IssuedVote? && d in t.candidates ==> ctx.isMember(from, t.candidates[d].group))
    ensures ValidityVote(ctx, t, from, d, vote).misbehavior.Some? <==>
              d in t.candidates && (!ctx.isMember(from, t.candidates[d].group)
                                    || (ValidityOf(t, d, from).Some? && !SameKind(vote, ValidityOf(t, d, from).value)))
  {
  }

  /** A statement gets its sender accused if and only if it offends. */
  lemma AccusesIff(ctx: Context, t: Votes, s: Signed)
    requires Sound(ctx, t) && Injective(ctx)
    ensures Consider(ctx, t, s).misbehavior.Some? <==> Offends(ctx, t, s)
  {
    match s.statement {
      case Propose(c) => ProposalAccusesIff(ctx, t, s);
      case Valid(d) => VoteAccusesIff(ctx, t, s.sender, d, ValidVote(s.signature));
      case Invalid(d) => VoteAccusesIff(ctx, t, s.sender, d, InvalidVote(s.signature));
      case Available(_) =>
    }
  }

  lemma ProposalAccusesIff(ctx: Context, t: Votes, s: Signed)
    requires Sound(ctx, t) && Injective(ctx) && s.statement.Propose?
    ensures Consider(ctx, t, s).misbehavior.Some? <==> Offends(ctx, t, s)
  {
    var c := s.statement.candidate;
    if Admitted(ctx, t, s) {
      if ProposalOf(t, s.sender).Some? {
        ProposerIsMember(ctx, t, s.sender, c);
        VoteAccusesIff(ctx, t, s.sender, ctx.digest(c), IssuedVote(s.signature));
      } else {
        var t1 := Proposed(ctx, t, s.sender, c, s.signature);
        ProposedIsSound(ctx, t, s.sender, c, s.signature);
        ProposerIsMember(ctx, t1, s.sender, c);
        VoteAccusesIff(ctx, t1, s.sender, ctx.digest(c), IssuedVote(s.signature));
        assert ValidityOf(t1, ctx.digest(c), s.sender) == ValidityOf(t, ctx.digest(c), s.sender);
      }
    }
  }

  /** A second proposal is cited with the first, in this order. */
  lemma SecondProposalIsCited(ctx: Context, t: Votes, s: Signed)
    requires Sound(ctx, t) && Injective(ctx) && s.statement.Propose? && ctx.isMember(s.sender, ctx.group(s.statement.candidate))
    requires ProposalOf(t, s.sender).Some? && ProposalOf(t, s.sender).value.0 != DigestOf(ctx, s)
    ensures var (d, signature) := ProposalOf(t, s.sender).value;
            d in t.candidates && Consider(ctx, t, s).misbehavior
              == Some(MultipleCandidates((t.candidates[d].candidate, signature), (s.statement.candidate, s.signature)))
  {
  }

  /** What a peer is known to have seen is a sender's kind of statement on a candidate; of proposals,
      any of the sender's. */
  lemma SameTraceIff(ctx: Context, s: Signed, s': Signed)
    ensures TraceOf(s) == TraceOf(s') <==>
              && s.sender == s'.sender
              && (s.statement.Propose? <==> s'.statement.Propose?)
              && (s.statement.Valid? <==> s'.statement.Valid?)
              && (s.statement.Invalid? <==> s'.statement.Invalid?)
              && (s.statement.Propose? || DigestOf(ctx, s) == DigestOf(ctx, s'))
  {
  }

  /** The accusation cites the statement. */
  ghost predicate Cites(m: Misbehavior, s: Signed) {
    match m
    case IssuedAndValidity(c, i, d, g) => (s.statement == Propose(c) && s.signature == i) || (s.statement == Valid(d) && s.signature == g)
    case IssuedAndInvalidity(c, i, d, b) => (s.statement == Propose(c) && s.signature == i) || (s.statement == Invalid(d) && s.signature == b)
    case ValidityAndInvalidity(d, g, b) => (s.statement == Valid(d) && s.signature == g) || (s.statement == Invalid(d) && s.signature == b)
    case MultipleCandidates(_, second) => s.statement == Propose(second.0) && s.signature == second.1
    case Unauthorized(statement) => statement == s
  }

  lemma VoteIsCited(ctx: Context, t: Votes, s: Signed, d: Digest, vote: Vote)
    requires Sound(ctx, t) && Injective(ctx) && VoteOf(s) == Some(vote) && d == DigestOf(ctx, s)
    requires s.statement.Propose? && d in t.candidates ==> ctx.isMember(s.sender, t.candidates[d].group)
    ensures var m := ValidityVote(ctx, t, s.sender, d, vote).misbehavior; m.Some? ==> Cites(m.value, s)
  {
    if d in t.candidates {
      assert SoundCandidate(ctx, d, t.candidates[d]);
    }
  }

  lemma AccusationCites(ctx: Context, t: Votes, s: Signed)
    requires Sound(ctx, t) && Injective(ctx)
    ensures var m := Consider(ctx, t, s).misbehavior; m.Some? ==> Cites(m.value, s)
  {
    match s.statement {
      case Propose(c) =>
        if Admitted(ctx, t, s) {
          if ProposalOf(t, s.sender).Some? {
            ProposerIsMember(ctx, t, s.sender, c);
            VoteIsCited(ctx, t, s, ctx.digest(c), IssuedVote(s.signature));
          } else {
            var t1 := Proposed(ctx, t, s.sender, c, s.signature);
            ProposedIsSound(ctx, t, s.sender, c, s.signature);
            ProposerIsMember(ctx, t1, s.sender, c);
            VoteIsCited(ctx, t1, s, ctx.digest(c), IssuedVote(s.signature));
          }
        }
      case Valid(d) => VoteIsCited(ctx, t, s, d, ValidVote(s.signature));
      case Invalid(d) => VoteIsCited(ctx, t, s, d, InvalidVote(s.signature));
      case Available(_) =>
    }
  }

  /** After an offence its sender is accused of just that; any other statement leaves all
      accusations as they were. */
  lemma ImportAccuses(ctx: Context, t: Votes, s: Signed, from: Option<AuthorityId>, a: AuthorityId)
    requires Sound(ctx, t) && Injective(ctx)
    ensures var t' := Imported(ctx, t, s, from);
            if Offends(ctx, t, s) && a == s.sender then a in t'.misbehavior && Cites(t'.misbehavior[a], s)
            else (a in t'.misbehavior <==> a in t.misbehavior) && (a in t.misbehavior ==> t'.misbehavior[a] == t.misbehavior[a])
  {
    AccusesIff(ctx, t, s);
    AccusationCites(ctx, t, s);
    ConsiderKeepsAccusations(ctx, t, s);
  }

  lemma ConsiderKeepsAccusations(ctx: Context, t: Votes, s: Signed)
    requires Sound(ctx, t) && Injective(ctx)
    ensures Consider(ctx, t, s).votes.misbehavior == t.misbehavior
  {
    if s.statement.Propose? && Admitted(ctx, t, s) {
      var c := s.statement.candidate;
      if ProposalOf(t, s.sender).Some? {
        ProposerIsMember(ctx, t, s.sender, c);
      } else {
        ProposedIsSound(ctx, t, s.sender, c, s.signature);
        ProposerIsMember(ctx, Proposed(ctx, t, s.sender, c, s.signature), s.sender, c);
      }
    }
  }
}
