/** The statement table as an object, and the loops that read it. */
module StatementTable {
  import opened Primitives
  import opened Statements
  import opened TableCounts
  import opened Gossip
  import opened Batches
  import opened Ordered
  import VoteLaws

  class Table {
    var authorities: map<AuthorityId, AuthorityData>
    var misbehavior: map<AuthorityId, Misbehavior>
    var candidates: map<Digest, CandidateData>
    var includable: map<GroupId, nat>

    ghost function Contents(): Votes
      reads this
    {
      Votes(authorities, misbehavior, candidates, includable)
    }

    constructor ()
      ensures Contents() == NO_VOTES
    {
      authorities, misbehavior, candidates, includable := map[], map[], map[], map[];
    }

    method NoteTraceSeen(trace: Trace, knownBy: AuthorityId)
      modifies this`authorities
      ensures Contents() == Seen(old(Contents()), trace, knownBy)
    {
      var data := if knownBy in authorities then authorities[knownBy] else BLANK;
      authorities := authorities[knownBy := data.(known := data.known + {trace})];
    }

    method UpdateIncludableCount(group: GroupId, was: bool, now: bool)
      requires forall g :: g in includable ==> includable[g] > 0
      modifies this`includable
      ensures includable == Adjusted(old(includable), group, was, now)
    {
      if was && !now {
        if group in includable {
          includable := includable[group := includable[group] - 1];
          if includable[group] == 0 {
            includable := includable - {group};
          }
        }
      }
      if !was && now {
        includable := includable[group := (if group in includable then includable[group] else 0) + 1];
      }
    }

    method CastValidityVote(ctx: Context, from: AuthorityId, digest: Digest, vote: Vote)
      returns (proof: Option<Misbehavior>, summary: Option<Summary>)
      requires Sound(ctx, Contents())
      requires vote.IssuedVote? && digest in candidates ==> ctx.isMember(from, candidates[digest].group)
      modifies this`candidates, this`includable
      ensures Outcome(Contents(), proof, summary) == ValidityVote(ctx, old(Contents()), from, digest, vote)
    {
      proof, summary := None, None;
      if digest !in candidates {
        return;
      }
      var votes := candidates[digest];
      var was := CanBeIncluded(votes, ctx.requisite(votes.group));
      if !ctx.isMember(from, votes.group) {
        var statement := if vote.ValidVote? then Valid(digest) else Invalid(digest);
        proof := Some(Unauthorized(Signed(statement, vote.signature, from)));
        return;
      }
      if from in votes.validity {
        if votes.validity[from] != vote {
          proof := DoubleVote(votes.candidate, digest, votes.validity[from], vote);
        }
        return;
      }
      CastIsSound(ctx, digest, votes, from, vote);
      if vote.InvalidVote? {
        votes := votes.(badBy := votes.badBy + [from]);
      }
      votes := votes.(validity := votes.validity[from := vote]);
      BadAreVoters(ctx, digest, votes);
      candidates := candidates[digest := votes];
      UpdateIncludableCount(votes.group, was, CanBeIncluded(votes, ctx.requisite(votes.group)));
      summary := Some(Summarize(votes, digest));
    }

    method CastAvailabilityVote(ctx: Context, from: AuthorityId, digest: Digest, signature: Signature)
      returns (proof: Option<Misbehavior>, summary: Option<Summary>)
      requires Sound(ctx, Contents())
      modifies this`candidates, this`includable
      ensures Outcome(Contents(), proof, summary) == AvailabilityVote(ctx, old(Contents()), from, digest, signature)
    {
      proof, summary := None, None;
      if digest !in candidates {
        return;
      }
      var votes := candidates[digest];
      var was := CanBeIncluded(votes, ctx.requisite(votes.group));
      if !ctx.isGuarantor(from, votes.group) {
        proof := Some(Unauthorized(Signed(Available(digest), signature, from)));
        return;
      }
      BadAreVoters(ctx, digest, votes);
      votes := votes.(availability := votes.availability[from := signature]);
      candidates := candidates[digest := votes];
      UpdateIncludableCount(votes.group, was, CanBeIncluded(votes, ctx.requisite(votes.group)));
      summary := Some(Summarize(votes, digest));
    }

    method ImportCandidate(ctx: Context, from: AuthorityId, candidate: Candidate, signature: Signature)
      returns (proof: Option<Misbehavior>, summary: Option<Summary>)
      requires Sound(ctx, Contents()) && Injective(ctx)
      modifies this`authorities, this`candidates, this`includable
      ensures Outcome(Contents(), proof, summary) == Statements.ImportCandidate(ctx, old(Contents()), from, candidate, signature)
    {
      if !ctx.isMember(from, ctx.group(candidate)) {
        return Some(Unauthorized(Signed(Propose(candidate), signature, from))), None;
      }
      var digest := ctx.digest(candidate);
      if from in authorities && authorities[from].proposal.Some? {
        var earlier := authorities[from].proposal.value;
        if earlier.0 != digest {
          return Some(MultipleCandidates((candidates[earlier.0].candidate, earlier.1), (candidate, signature))), None;
        }
        ProposerIsMember(ctx, Contents(), from, candidate);
      } else {
        ghost var t := Contents();
        var known := if from in authorities then authorities[from].known else {};
        authorities := authorities[from := AuthorityData(Some((digest, signature)), known)];
        if digest !in candidates {
          candidates := candidates[digest := CandidateData(ctx.group(candidate), candidate, map[], map[], [])];
        }
        assert Contents() == Proposed(ctx, t, from, candidate, signature);
        ProposedIsSound(ctx, t, from, candidate, signature);
        ProposerIsMember(ctx, Contents(), from, candidate);
      }
      proof, summary := CastValidityVote(ctx, from, digest, IssuedVote(signature));
    }

    method ImportStatement(ctx: Context, s: Signed, from: Option<AuthorityId>) returns (summary: Option<Summary>)
      requires Sound(ctx, Contents()) && Injective(ctx)
      modifies this
      ensures Contents() == Imported(ctx, old(Contents()), s, from)
      ensures summary == Consider(ctx, old(Contents()), s).summary
      ensures summary.Some? ==> VoteLaws.Tells(Contents(), summary.value)
      ensures Sound(ctx, Contents())
    {
      VoteLaws.ImportIsSummarized(ctx, Contents(), s, from);
      ImportIsSound(ctx, Contents(), s, from);
      var proof: Option<Misbehavior>;
      match s.statement {
        case Propose(c) => proof, summary := ImportCandidate(ctx, s.sender, c, s.signature);
        case Valid(d) => proof, summary := CastValidityVote(ctx, s.sender, d, ValidVote(s.signature));
        case Invalid(d) => proof, summary := CastValidityVote(ctx, s.sender, d, InvalidVote(s.signature));
        case Available(d) => proof, summary := CastAvailabilityVote(ctx, s.sender, d, s.signature);
      }
      if proof.Some? {
        misbehavior := misbehavior[s.sender := proof.value];
      } else {
        if from.Some? {
          NoteTraceSeen(TraceOf(s), from.value);
        }
        NoteTraceSeen(TraceOf(s), s.sender);
      }
    }

    /** Fill a batch for some targets, and note what they will have seen. `accepts` is the
        batch: it says whether a statement still fits. */
    method FillBatch(targets: seq<AuthorityId>, accepts: seq<Signed> -> bool, ghost ctx: Context) returns (sent: seq<Signed>)
      requires Sound(ctx, Contents())
      modifies this`authorities
      ensures Contents() == Gossiped(old(Contents()), targets, Traces(sent))
      ensures Batch(ctx, old(Contents()), targets, sent)
      ensures Unbounded(accepts) ==> forall s :: Recorded(ctx, old(Contents()), s) ==> Handled(old(Contents()), targets, sent, s)
    {
      ghost var t := Contents();
      var rest, data := FetchTargets(authorities, targets, t);
      assert Traces([]) == {};
      var f := SendAll(accepts, Filling(data, []), candidates, ctx, t, targets);
      sent := f.sent;
      authorities := RestoreTargets(rest, f.data, t, targets, Traces(sent));
    }

    /** The votes decide: enough of both kinds, and none against the candidate. */
    method CandidateIncludable(ctx: Context, digest: Digest) returns (r: bool)
      ensures Sound(ctx, Contents()) ==>
                (r <==>
                  && digest in candidates
                  && (forall a :: a in candidates[digest].validity ==> !candidates[digest].validity[a].InvalidVote?)
                  && |candidates[digest].validity| >= ctx.requisite(candidates[digest].group).0
                  && |candidates[digest].availability| >= ctx.requisite(candidates[digest].group).1)
    {
      r := digest in candidates && CanBeIncluded(candidates[digest], ctx.requisite(candidates[digest].group));
      if digest in candidates && Sound(ctx, Contents()) {
        IncludableIsApproved(ctx, digest, candidates[digest]);
      }
    }

    method IncludableCount(ghost ctx: Context) returns (n: nat)
      requires Counted(ctx, Contents())
      ensures forall groups: set<GroupId> :: (forall g :: g in groups <==> exists d :: HasApproved(ctx, Contents(), g, d)) ==> n == |groups|
    {
      n := |includable|;
      forall groups: set<GroupId> | forall g :: g in groups <==> exists d :: HasApproved(ctx, Contents(), g, d) ensures n == |groups| {
        forall g ensures g in groups <==> g in includable.Keys {
          assert CountedAt(ctx, Contents(), g);
          SomeApproved(ctx, Contents(), g);
        }
        assert groups == includable.Keys;
      }
    }

    /** The best approved candidate of each group, in ascending order of the groups. */
    method ProposedCandidates(ctx: Context, less: (Candidate, Candidate) -> bool) returns (r: seq<Candidate>)
      requires Sound(ctx, Contents()) && StrictOrder(less)
      ensures Chosen(ctx, Contents(), less, r)
      ensures Counted(ctx, Contents()) ==> |r| == |includable|
    {
      var best := BestPerGroup(ctx, less, candidates, includable.Keys, Contents());
      var groups := Ascending(best.Keys);
      r := seq(|groups|, i requires 0 <= i < |groups| => best[groups[i]]);
      ListIsChosen(ctx, Contents(), less, best, groups, r);
      if Counted(ctx, Contents()) {
        SameGroups(ctx, Contents(), best.Keys);
      }
    }
  }

  /** The candidate is known, belongs to the group and is approved. */
  ghost predicate HasApproved(ctx: Context, t: Votes, g: GroupId, d: Digest) {
    d in t.candidates && t.candidates[d].group == g && Approved(ctx, t.candidates[d])
  }

  lemma SomeApproved(ctx: Context, t: Votes, g: GroupId)
    ensures Live(ctx, t, g) != {} <==> exists d :: HasApproved(ctx, t, g, d)
  {
    if d :| HasApproved(ctx, t, g, d) {
      assert d in Live(ctx, t, g);
    }
    if Live(ctx, t, g) != {} {
      var d :| d in Live(ctx, t, g);
      assert HasApproved(ctx, t, g, d);
    }
  }

  /** One best candidate for every group that has one, in ascending order of the groups. */
  ghost predicate Chosen(ctx: Context, t: Votes, less: (Candidate, Candidate) -> bool, r: seq<Candidate>) {
    && (forall i, j :: 0 <= i < j < |r| ==> ctx.group(r[i]) < ctx.group(r[j]))
    && (forall i :: 0 <= i < |r| ==> Best(ctx, t, less, r[i]))
    && (forall g :: (exists i :: 0 <= i < |r| && ctx.group(r[i]) == g) <==> g in t.includable && Live(ctx, t, g) != {})
  }

  /** What a proposed candidate is, in terms of the votes: known under its digest, voted for by
      enough, voted against by nobody, and not beaten by another such candidate of its group. */
  lemma ChosenAreApproved(ctx: Context, t: Votes, less: (Candidate, Candidate) -> bool, r: seq<Candidate>, i: nat)
    requires Sound(ctx, t) && Chosen(ctx, t, less, r) && i < |r|
    ensures var c, d := r[i], ctx.digest(r[i]);
            && d in t.candidates && t.candidates[d].candidate == c
            && (forall a :: a in t.candidates[d].validity ==> !t.candidates[d].validity[a].InvalidVote?)
            && |t.candidates[d].validity| >= ctx.requisite(ctx.group(c)).0
            && |t.candidates[d].availability| >= ctx.requisite(ctx.group(c)).1
    ensures forall e :: (&& e in t.candidates && t.candidates[e].group == ctx.group(r[i])
                         && (forall a :: a in t.candidates[e].validity ==> !t.candidates[e].validity[a].InvalidVote?)
                         && |t.candidates[e].validity| >= ctx.requisite(ctx.group(r[i])).0
                         && |t.candidates[e].availability| >= ctx.requisite(ctx.group(r[i])).1)
                        ==> !less(t.candidates[e].candidate, r[i])
  {
    assert Best(ctx, t, less, r[i]);
    forall e | e in t.candidates && t.candidates[e].group == ctx.group(r[i]) && Approved(ctx, t.candidates[e])
      ensures !less(t.candidates[e].candidate, r[i])
    {
      assert e in Live(ctx, t, ctx.group(r[i]));
    }
  }

  lemma ListIsChosen(ctx: Context, t: Votes, less: (Candidate, Candidate) -> bool, best: map<GroupId, Candidate>, groups: seq<GroupId>, r: seq<Candidate>)
    requires forall g :: g in best ==> ctx.group(best[g]) == g && Best(ctx, t, less, best[g])
    requires forall g :: g in best <==> g in t.includable && Live(ctx, t, g) != {}
    requires Listed(best.Keys, groups) && |r| == |groups|
    requires forall i :: 0 <= i < |r| ==> groups[i] in best && r[i] == best[groups[i]]
    ensures Chosen(ctx, t, less, r)
  {
    assert forall i :: 0 <= i < |r| ==> ctx.group(r[i]) == groups[i] && Best(ctx, t, less, r[i]);
    forall g ensures (exists i :: 0 <= i < |r| && ctx.group(r[i]) == g) <==> g in best {
      if g in best {
        assert g in Elems(groups);
        var i :| 0 <= i < |groups| && groups[i] == g;
        assert ctx.group(r[i]) == g;
      }
    }
  }

  lemma SameGroups(ctx: Context, t: Votes, groups: set<GroupId>)
    requires Counted(ctx, t) && forall g :: g in groups <==> g in t.includable && Live(ctx, t, g) != {}
    ensures groups == t.includable.Keys
  {
    forall g ensures g in groups <==> g in t.includable {
      assert CountedAt(ctx, t, g);
    }
  }

  // ---------- The best candidate of each group ----------

  ghost predicate StrictOrder(less: (Candidate, Candidate) -> bool) {
    && (forall c :: !less(c, c))
    && (forall a, b, c :: less(a, b) && less(b, c) ==> less(a, c))
  }

  /** The candidate is approved and no approved candidate of its group comes before it. */
  ghost predicate Best(ctx: Context, t: Votes, less: (Candidate, Candidate) -> bool, c: Candidate) {
    Leads(ctx, t, less, t.candidates.Keys, c)
  }

  ghost predicate Leads(ctx: Context, t: Votes, less: (Candidate, Candidate) -> bool, seen: set<Digest>, c: Candidate) {
    && ctx.digest(c) in Live(ctx, t, ctx.group(c)) && t.candidates[ctx.digest(c)].candidate == c
    && forall d :: d in Live(ctx, t, ctx.group(c)) && d in seen ==> !less(t.candidates[d].candidate, c)
  }

  /** What the search has found for a group once it has seen some of the candidates. */
  ghost predicate BestAt(ctx: Context, t: Votes, less: (Candidate, Candidate) -> bool, seen: set<Digest>, counted: set<GroupId>, best: map<GroupId, Candidate>, g: GroupId) {
    && (g in best <==> g in counted && Live(ctx, t, g) * seen != {})
    && (g in best ==> ctx.group(best[g]) == g && Leads(ctx, t, less, seen, best[g]))
  }

  method BestPerGroup(ctx: Context, less: (Candidate, Candidate) -> bool, candidates: map<Digest, CandidateData>, counted: set<GroupId>, ghost t: Votes)
    returns (best: map<GroupId, Candidate>)
    requires Sound(ctx, t) && StrictOrder(less) && candidates == t.candidates
    ensures forall g :: g in best ==> ctx.group(best[g]) == g && Best(ctx, t, less, best[g])
    ensures forall g :: g in best <==> g in counted && Live(ctx, t, g) != {}
  {
    best := map[];
    var rest := candidates.Keys;
    while rest != {}
      invariant rest <= candidates.Keys
      invariant forall g :: BestAt(ctx, t, less, candidates.Keys - rest, counted, best, g)
      decreases |rest|
    {
      var d :| d in rest;
      forall g ensures BestAt(ctx, t, less, candidates.Keys - rest + {d}, counted, Improved(ctx, less, counted, best, candidates[d]), g) {
        ImprovedIsBest(ctx, t, less, candidates.Keys - rest, counted, best, d, g);
      }
      assert candidates.Keys - rest + {d} == candidates.Keys - (rest - {d});
      best, rest := Improved(ctx, less, counted, best, candidates[d]), rest - {d};
    }
    assert candidates.Keys - {} == candidates.Keys;
    forall g ensures g in best ==> ctx.group(best[g]) == g && Best(ctx, t, less, best[g])
             ensures g in best <==> g in counted && Live(ctx, t, g) != {} {
      assert BestAt(ctx, t, less, candidates.Keys, counted, best, g);
      assert Live(ctx, t, g) == Live(ctx, t, g) * candidates.Keys;
    }
  }

  /** One turn of the search. */
  function Improved(ctx: Context, less: (Candidate, Candidate) -> bool, counted: set<GroupId>, best: map<GroupId, Candidate>, data: CandidateData): map<GroupId, Candidate> {
    if data.group !in counted || !Includable(ctx, data) then best
    else if data.group in best && !less(data.candidate, best[data.group]) then best
    else best[data.group := data.candidate]
  }

  lemma ImprovedIsBest(ctx: Context, t: Votes, less: (Candidate, Candidate) -> bool, seen: set<Digest>, counted: set<GroupId>, best: map<GroupId, Candidate>, d: Digest, g: GroupId)
    requires Sound(ctx, t) && StrictOrder(less) && d in t.candidates && BestAt(ctx, t, less, seen, counted, best, g)
    ensures BestAt(ctx, t, less, seen + {d}, counted, Improved(ctx, less, counted, best, t.candidates[d]), g)
  {
    assert SoundCandidate(ctx, d, t.candidates[d]);
    IncludableIsApproved(ctx, d, t.candidates[d]);
    SomeSeen(Live(ctx, t, g), seen, d);
    if g in best {
      NextLeader(ctx, t, less, seen, best[g], d);
    } else if Live(ctx, t, g) * seen == {} && d in Live(ctx, t, g) {
      FirstLeader(ctx, t, less, seen, g, d);
    }
  }

  lemma SomeSeen<T>(live: set<T>, seen: set<T>, d: T)
    ensures live * (seen + {d}) != {} <==> live * seen != {} || d in live
  {
    assert live * (seen + {d}) == live * seen + live * {d};
    assert d in live ==> d in live * {d};
  }

  lemma FirstLeader(ctx: Context, t: Votes, less: (Candidate, Candidate) -> bool, seen: set<Digest>, g: GroupId, d: Digest)
    requires Sound(ctx, t) && StrictOrder(less) && d in Live(ctx, t, g) && Live(ctx, t, g) * seen == {}
    ensures Leads(ctx, t, less, seen + {d}, t.candidates[d].candidate)
  {
    assert SoundCandidate(ctx, d, t.candidates[d]);
    assert forall e :: e in Live(ctx, t, g) && e in seen ==> e in Live(ctx, t, g) * seen;
  }

  /** A leader stays one unless the next candidate beats it, and then that one leads. */
  lemma NextLeader(ctx: Context, t: Votes, less: (Candidate, Candidate) -> bool, seen: set<Digest>, c: Candidate, d: Digest)
    requires Sound(ctx, t) && StrictOrder(less) && d in t.candidates && Leads(ctx, t, less, seen, c)
    ensures var data := t.candidates[d];
            if d in Live(ctx, t, ctx.group(c)) && less(data.candidate, c) then Leads(ctx, t, less, seen + {d}, data.candidate)
            else Leads(ctx, t, less, seen + {d}, c)
  {
    assert SoundCandidate(ctx, d, t.candidates[d]);
  }
}
