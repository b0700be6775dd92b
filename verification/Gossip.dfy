/** Gossip: a table is turned back into the statements it was built from, and importing those
    into an empty table builds the same votes again. */
module Gossip {
  import opened Primitives
  import opened Statements
  import opened TableCounts
  import opened TableInvariants

  // ---------- Statements on record ----------

  function DigestOf(ctx: Context, s: Signed): Digest {
    match s.statement
    case Propose(c) => ctx.digest(c)
    case Valid(d) => d
    case Invalid(d) => d
    case Available(d) => d
  }

  /** The table holds the vote that the statement stands for. */
  ghost predicate Recorded(ctx: Context, t: Votes, s: Signed) {
    var d := DigestOf(ctx, s);
    && d in t.candidates
    && match s.statement
       case Propose(c) => t.candidates[d].candidate == c && HasVote(t.candidates[d], s.sender, IssuedVote(s.signature))
       case Valid(_) => HasVote(t.candidates[d], s.sender, ValidVote(s.signature))
       case Invalid(_) => HasVote(t.candidates[d], s.sender, InvalidVote(s.signature))
       case Available(_) => s.sender in t.candidates[d].availability && t.candidates[d].availability[s.sender] == s.signature
  }

  ghost predicate HasVote(data: CandidateData, a: AuthorityId, vote: Vote) {
    a in data.validity && data.validity[a] == vote
  }

  /** The statements on record, each vote after a proposal of its candidate. */
  ghost predicate FullBatch(ctx: Context, t: Votes, sent: seq<Signed>) {
    && (forall s :: s in sent <==> Recorded(ctx, t, s))
    && (forall j :: 0 <= j < |sent| && !sent[j].statement.Propose? ==> Introduced(ctx, sent[..j], DigestOf(ctx, sent[j])))
  }

  ghost predicate Introduced(ctx: Context, sent: seq<Signed>, d: Digest) {
    exists p :: p in sent && p.statement.Propose? && DigestOf(ctx, p) == d
  }

  ghost function Replay(ctx: Context, t: Votes, sent: seq<Signed>, from: Option<AuthorityId>): (r: Votes)
    requires Sound(ctx, t) && Injective(ctx)
    ensures Sound(ctx, r)
  {
    if sent == [] then t
    else
      var before := Replay(ctx, t, sent[..|sent| - 1], from);
      ImportIsSound(ctx, before, sent[|sent| - 1], from);
      Imported(ctx, before, sent[|sent| - 1], from)
  }

  // ---------- One statement replayed ----------

  /** Every vote and every candidate is kept. */
  ghost predicate Grows(t: Votes, t': Votes) {
    forall d :: d in t.candidates ==> d in t'.candidates && GrowsAt(t.candidates[d], t'.candidates[d])
  }

  ghost predicate GrowsAt(data: CandidateData, data': CandidateData) {
    && data'.candidate == data.candidate
    && (forall a :: a in data.validity ==> HasVote(data', a, data.validity[a]))
    && (forall a :: a in data.availability ==> a in data'.availability && data'.availability[a] == data.availability[a])
  }

  lemma GrownTableKeepsRecords(ctx: Context, t: Votes, t': Votes, s: Signed)
    requires Grows(t, t') && Recorded(ctx, t, s)
    ensures Recorded(ctx, t', s)
  {
    assert GrowsAt(t.candidates[DigestOf(ctx, s)], t'.candidates[DigestOf(ctx, s)]);
  }

  /** `copy` was built from some of the statements on record in `t`, and holds them all. */
  ghost predicate Copies(ctx: Context, said: set<Signed>, t: Votes, prefix: seq<Signed>, copy: Votes) {
    && Inv(ctx, said, t) && Inv(ctx, Elems(prefix), copy)
    && AllRecorded(ctx, t, prefix) && AllRecorded(ctx, copy, prefix)
    && copy.misbehavior == map[]
  }

  ghost predicate AllRecorded(ctx: Context, t: Votes, sent: seq<Signed>) {
    forall s :: s in sent ==> Recorded(ctx, t, s)
  }

  /** A vote in the copy is the vote in the original. */
  lemma CopiedVote(ctx: Context, said: set<Signed>, t: Votes, prefix: seq<Signed>, copy: Votes, d: Digest, a: AuthorityId)
    requires Copies(ctx, said, t, prefix, copy) && d in copy.candidates
    ensures a in copy.candidates[d].validity ==> d in t.candidates && HasVote(t.candidates[d], a, copy.candidates[d].validity[a])
    ensures a in copy.candidates[d].availability ==>
              && d in t.candidates && a in t.candidates[d].availability
              && t.candidates[d].availability[a] == copy.candidates[d].availability[a]
  {
    var data := copy.candidates[d];
    if a in data.validity {
      assert BackedVote(ctx, Elems(prefix), copy, d, a);
      assert Recorded(ctx, t, Signed(StatementFor(data, d, data.validity[a]), data.validity[a].signature, a));
    }
    if a in data.availability {
      assert BackedAvailability(ctx, Elems(prefix), copy, d, a);
      assert Recorded(ctx, t, Signed(Available(d), data.availability[a], a));
    }
  }

  lemma CopiedCandidate(ctx: Context, t: Votes, copy: Votes, d: Digest)
    requires Sound(ctx, t) && Sound(ctx, copy) && Injective(ctx) && d in t.candidates && d in copy.candidates
    ensures t.candidates[d].candidate == copy.candidates[d].candidate && t.candidates[d].group == copy.candidates[d].group
  {
  }

  ghost predicate Lands(ctx: Context, copy: Votes, o: Outcome, s: Signed) {
    o.misbehavior.None? && o.votes.misbehavior == copy.misbehavior && Grows(copy, o.votes) && Recorded(ctx, o.votes, s)
  }

  lemma MemberVotes(ctx: Context, t: Votes, from: AuthorityId, d: Digest, vote: Vote)
    requires Sound(ctx, t) && d in t.candidates && ctx.isMember(from, t.candidates[d].group)
    requires from in t.candidates[d].validity ==> t.candidates[d].validity[from] == vote
    ensures var o := ValidityVote(ctx, t, from, d, vote);
            && o.misbehavior.None? && o.votes.misbehavior == t.misbehavior && Grows(t, o.votes)
            && d in o.votes.candidates && HasVote(o.votes.candidates[d], from, vote)
  {
  }

  lemma GuarantorVotes(ctx: Context, t: Votes, from: AuthorityId, d: Digest, signature: Signature)
    requires Sound(ctx, t) && d in t.candidates && ctx.isGuarantor(from, t.candidates[d].group)
    requires from in t.candidates[d].availability ==> t.candidates[d].availability[from] == signature
    ensures Lands(ctx, t, AvailabilityVote(ctx, t, from, d, signature), Signed(Available(d), signature, from))
  {
  }

  /** The vote of a statement on record in the original, cast into the copy. */
  lemma VoteIsCastable(ctx: Context, said: set<Signed>, t: Votes, prefix: seq<Signed>, copy: Votes, d: Digest, a: AuthorityId, vote: Vote)
    requires Copies(ctx, said, t, prefix, copy) && Injective(ctx) && d in copy.candidates
    requires d in t.candidates && HasVote(t.candidates[d], a, vote)
    ensures ctx.isMember(a, copy.candidates[d].group)
    ensures a in copy.candidates[d].validity ==> copy.candidates[d].validity[a] == vote
  {
    assert BackedVote(ctx, said, t, d, a);
    CopiedCandidate(ctx, t, copy, d);
    CopiedVote(ctx, said, t, prefix, copy, d, a);
  }

  lemma AvailabilityIsCastable(ctx: Context, said: set<Signed>, t: Votes, prefix: seq<Signed>, copy: Votes, d: Digest, a: AuthorityId)
    requires Copies(ctx, said, t, prefix, copy) && Injective(ctx) && d in copy.candidates
    requires d in t.candidates && a in t.candidates[d].availability
    ensures ctx.isGuarantor(a, copy.candidates[d].group)
    ensures a in copy.candidates[d].availability ==> copy.candidates[d].availability[a] == t.candidates[d].availability[a]
  {
    assert BackedAvailability(ctx, said, t, d, a);
    CopiedCandidate(ctx, t, copy, d);
    CopiedVote(ctx, said, t, prefix, copy, d, a);
  }

  /** The proposal of a statement on record is the only one of its sender. */
  lemma ProposalIsCastable(ctx: Context, said: set<Signed>, t: Votes, prefix: seq<Signed>, copy: Votes, s: Signed)
    requires Copies(ctx, said, t, prefix, copy) && Injective(ctx)
    requires s.statement.Propose? && Recorded(ctx, t, s)
    ensures ctx.isMember(s.sender, ctx.group(s.statement.candidate))
    ensures ProposalOf(copy, s.sender).Some? ==>
              ProposalOf(copy, s.sender) == Some((DigestOf(ctx, s), s.signature)) && DigestOf(ctx, s) in copy.candidates
  {
    var d, a := DigestOf(ctx, s), s.sender;
    assert BackedVote(ctx, said, t, d, a);
    if ProposalOf(copy, a).Some? {
      var earlier := ProposalOf(copy, a).value;
      assert BackedProposal(Elems(prefix), copy, a);
      var s' := Signed(Propose(copy.candidates[earlier.0].candidate), earlier.1, a);
      assert Recorded(ctx, t, s');
      assert BackedVote(ctx, said, t, DigestOf(ctx, s'), a);
    }
  }

  lemma FreshProposalLands(ctx: Context, copy: Votes, s: Signed)
    requires Sound(ctx, copy) && Injective(ctx) && s.statement.Propose?
    requires ctx.isMember(s.sender, ctx.group(s.statement.candidate)) && ProposalOf(copy, s.sender).None?
    requires var d := DigestOf(ctx, s);
             d in copy.candidates && s.sender in copy.candidates[d].validity ==> copy.candidates[d].validity[s.sender] == IssuedVote(s.signature)
    ensures Lands(ctx, copy, ImportCandidate(ctx, copy, s.sender, s.statement.candidate, s.signature), s)
  {
    var c, d := s.statement.candidate, DigestOf(ctx, s);
    var t1 := Proposed(ctx, copy, s.sender, c, s.signature);
    ProposedIsSound(ctx, copy, s.sender, c, s.signature);
    ProposerIsMember(ctx, t1, s.sender, c);
    assert Grows(copy, t1);
    MemberVotes(ctx, t1, s.sender, d, IssuedVote(s.signature));
    GrowthComposes(copy, t1, ValidityVote(ctx, t1, s.sender, d, IssuedVote(s.signature)).votes);
  }

  lemma GrowthComposes(t: Votes, t': Votes, t'': Votes)
    requires Grows(t, t') && Grows(t', t'')
    ensures Grows(t, t'')
  {
    forall d | d in t.candidates ensures d in t''.candidates && GrowsAt(t.candidates[d], t''.candidates[d]) {
      assert GrowsAt(t.candidates[d], t'.candidates[d]) && GrowsAt(t'.candidates[d], t''.candidates[d]);
    }
  }

  lemma ProposalLands(ctx: Context, said: set<Signed>, t: Votes, prefix: seq<Signed>, copy: Votes, s: Signed)
    requires Copies(ctx, said, t, prefix, copy) && Injective(ctx) && Recorded(ctx, t, s) && s.statement.Propose?
    ensures Lands(ctx, copy, Consider(ctx, copy, s), s)
  {
    var d, vote := DigestOf(ctx, s), IssuedVote(s.signature);
    ProposalIsCastable(ctx, said, t, prefix, copy, s);
    if d in copy.candidates {
      VoteIsCastable(ctx, said, t, prefix, copy, d, s.sender, vote);
    }
    if ProposalOf(copy, s.sender).Some? {
      MemberVotes(ctx, copy, s.sender, d, vote);
    } else {
      FreshProposalLands(ctx, copy, s);
    }
  }

  lemma StatementLands(ctx: Context, said: set<Signed>, t: Votes, prefix: seq<Signed>, copy: Votes, s: Signed)
    requires Copies(ctx, said, t, prefix, copy) && Injective(ctx) && Recorded(ctx, t, s)
    requires s.statement.Propose? || Introduced(ctx, prefix, DigestOf(ctx, s))
    ensures Lands(ctx, copy, Consider(ctx, copy, s), s)
  {
    var d := DigestOf(ctx, s);
    if s.statement.Propose? {
      ProposalLands(ctx, said, t, prefix, copy, s);
    } else {
      var p :| p in prefix && p.statement.Propose? && DigestOf(ctx, p) == d;
      assert Recorded(ctx, copy, p);
      match s.statement {
        case Valid(_) =>
          VoteIsCastable(ctx, said, t, prefix, copy, d, s.sender, ValidVote(s.signature));
          MemberVotes(ctx, copy, s.sender, d, ValidVote(s.signature));
        case Invalid(_) =>
          VoteIsCastable(ctx, said, t, prefix, copy, d, s.sender, InvalidVote(s.signature));
          MemberVotes(ctx, copy, s.sender, d, InvalidVote(s.signature));
        case Available(_) =>
          AvailabilityIsCastable(ctx, said, t, prefix, copy, d, s.sender);
          GuarantorVotes(ctx, copy, s.sender, d, s.signature);
      }
    }
  }

  lemma CopyExtends(ctx: Context, said: set<Signed>, t: Votes, prefix: seq<Signed>, copy: Votes, s: Signed, from: Option<AuthorityId>)
    requires Copies(ctx, said, t, prefix, copy) && Injective(ctx) && Recorded(ctx, t, s)
    requires s.statement.Propose? || Introduced(ctx, prefix, DigestOf(ctx, s))
    ensures Copies(ctx, said, t, prefix + [s], Imported(ctx, copy, s, from))
  {
    assert Lands(ctx, copy, Consider(ctx, copy, s), s) by {
      StatementLands(ctx, said, t, prefix, copy, s);
    }
    LandedIsRecorded(ctx, copy, Consider(ctx, copy, s), prefix, s, from);
    ImportExtendsPrefix(ctx, prefix, copy, s, from);
    RecordedAppend(ctx, t, prefix, s);
  }

  lemma ImportExtendsPrefix(ctx: Context, prefix: seq<Signed>, copy: Votes, s: Signed, from: Option<AuthorityId>)
    requires Inv(ctx, Elems(prefix), copy) && Injective(ctx)
    ensures Inv(ctx, Elems(prefix + [s]), Imported(ctx, copy, s, from))
  {
    ImportKeepsInv(ctx, Elems(prefix), copy, s, from);
    assert Elems(prefix + [s]) == Elems(prefix) + {s};
  }

  lemma RecordedAppend(ctx: Context, t: Votes, prefix: seq<Signed>, s: Signed)
    requires AllRecorded(ctx, t, prefix) && Recorded(ctx, t, s)
    ensures AllRecorded(ctx, t, prefix + [s])
  {
  }

  lemma LandedIsRecorded(ctx: Context, copy: Votes, o: Outcome, prefix: seq<Signed>, s: Signed, from: Option<AuthorityId>)
    requires Lands(ctx, copy, o, s) && AllRecorded(ctx, copy, prefix)
    ensures AllRecorded(ctx, Settled(o, s, from), prefix + [s]) && Settled(o, s, from).misbehavior == copy.misbehavior
  {
    forall p | p in prefix + [s] ensures Recorded(ctx, Settled(o, s, from), p) {
      if p in prefix {
        GrownTableKeepsRecords(ctx, copy, o.votes, p);
      }
      assert Recorded(ctx, o.votes, p);
    }
  }

  lemma {:induction false} ReplayCopies(ctx: Context, said: set<Signed>, t: Votes, sent: seq<Signed>, from: Option<AuthorityId>, n: nat)
    requires Inv(ctx, said, t) && Injective(ctx) && FullBatch(ctx, t, sent) && n <= |sent|
    ensures Copies(ctx, said, t, sent[..n], Replay(ctx, NO_VOTES, sent[..n], from))
  {
    if n != 0 {
      ReplayCopies(ctx, said, t, sent, from, n - 1);
      assert sent[..n][..n - 1] == sent[..n - 1] && sent[..n] == sent[..n - 1] + [sent[n - 1]];
      CopyExtends(ctx, said, t, sent[..n - 1], Replay(ctx, NO_VOTES, sent[..n - 1], from), sent[n - 1], from);
    }
  }

  // ---------- The round trip ----------

  ghost predicate SameCandidate(data: CandidateData, data': CandidateData) {
    && data'.group == data.group && data'.candidate == data.candidate
    && data'.validity == data.validity && data'.availability == data.availability
    && Elems(data'.badBy) == Elems(data.badBy) && |data'.badBy| == |data.badBy|
  }

  /** The proposal of an authority whose vote on it is the proposal itself. An authority that voted
      on the candidate before it proposed it has another vote on record. */
  ghost function ProposalOnRecord(t: Votes, a: AuthorityId): Option<(Digest, Signature)> {
    match ProposalOf(t, a)
    case Some(p) => if p.0 in t.candidates && HasVote(t.candidates[p.0], a, IssuedVote(p.1)) then Some(p) else None
    case None => None
  }

  lemma ProposalsAreCopied(ctx: Context, said: set<Signed>, t: Votes, sent: seq<Signed>, copy: Votes, a: AuthorityId)
    requires Copies(ctx, said, t, sent, copy) && Injective(ctx) && FullBatch(ctx, t, sent)
    ensures ProposalOf(copy, a) == ProposalOnRecord(t, a)
  {
    match ProposalOf(copy, a) {
      case Some(p) =>
        assert BackedProposal(Elems(sent), copy, a);
        var s := Signed(Propose(copy.candidates[p.0].candidate), p.1, a);
        assert Recorded(ctx, t, s);
        assert BackedVote(ctx, said, t, DigestOf(ctx, s), a);
      case None =>
        if ProposalOnRecord(t, a).Some? {
          ProposalIsCopied(ctx, said, t, sent, copy, a);
        }
    }
  }

  lemma ProposalIsCopied(ctx: Context, said: set<Signed>, t: Votes, sent: seq<Signed>, copy: Votes, a: AuthorityId)
    requires Copies(ctx, said, t, sent, copy) && FullBatch(ctx, t, sent) && ProposalOnRecord(t, a).Some?
    ensures ProposalOf(copy, a).Some?
  {
    var (d, signature) := ProposalOnRecord(t, a).value;
    assert SoundCandidate(ctx, d, t.candidates[d]);
    var s := Signed(Propose(t.candidates[d].candidate), signature, a);
    assert Recorded(ctx, t, s) && s in sent;
    assert Recorded(ctx, copy, s);
    assert BackedVote(ctx, Elems(sent), copy, d, a);
  }

  /** What an authority knows once it has said, or passed on, statements of a batch. */
  ghost function Heard(sent: seq<Signed>, from: Option<AuthorityId>, a: AuthorityId): set<Trace> {
    set s | s in sent && (s.sender == a || from == Some(a)) :: TraceOf(s)
  }

  lemma VoteKeepsAuthorities(ctx: Context, t: Votes, from: AuthorityId, d: Digest, vote: Vote)
    requires Sound(ctx, t) && (vote.IssuedVote? && d in t.candidates ==> ctx.isMember(from, t.candidates[d].group))
    ensures ValidityVote(ctx, t, from, d, vote).votes.authorities == t.authorities
  {
  }

  lemma ProposalKeepsKnown(ctx: Context, t: Votes, from: AuthorityId, c: Candidate, signature: Signature, a: AuthorityId)
    requires Sound(ctx, t) && Injective(ctx)
    ensures KnownOf(ImportCandidate(ctx, t, from, c, signature).votes, a) == KnownOf(t, a)
  {
    if ctx.isMember(from, ctx.group(c)) {
      match ProposalOf(t, from) {
        case Some(earlier) =>
          if earlier.0 == ctx.digest(c) {
            ProposerIsMember(ctx, t, from, c);
            VoteKeepsAuthorities(ctx, t, from, ctx.digest(c), IssuedVote(signature));
          }
        case None =>
          var t' := Proposed(ctx, t, from, c, signature);
          ProposedIsSound(ctx, t, from, c, signature);
          ProposerIsMember(ctx, t', from, c);
          VoteKeepsAuthorities(ctx, t', from, ctx.digest(c), IssuedVote(signature));
      }
    }
  }

  lemma ConsiderKeepsKnown(ctx: Context, t: Votes, s: Signed, a: AuthorityId)
    requires Sound(ctx, t) && Injective(ctx)
    ensures KnownOf(Consider(ctx, t, s).votes, a) == KnownOf(t, a)
  {
    match s.statement {
      case Propose(c) => ProposalKeepsKnown(ctx, t, s.sender, c, s.signature, a);
      case Valid(d) => VoteKeepsAuthorities(ctx, t, s.sender, d, ValidVote(s.signature));
      case Invalid(d) => VoteKeepsAuthorities(ctx, t, s.sender, d, InvalidVote(s.signature));
      case Available(_) =>
    }
  }

  /** What one statement adds to what an authority knows. */
  ghost function HeardFrom(s: Signed, from: Option<AuthorityId>, a: AuthorityId): set<Trace> {
    if s.sender == a || from == Some(a) then {TraceOf(s)} else {}
  }

  lemma SettledKnows(o: Outcome, s: Signed, from: Option<AuthorityId>, a: AuthorityId)
    requires o.misbehavior.None?
    ensures KnownOf(Settled(o, s, from), a) == KnownOf(o.votes, a) + HeardFrom(s, from, a)
  {
  }

  lemma HeardNext(sent: seq<Signed>, from: Option<AuthorityId>, k: nat, a: AuthorityId)
    requires k < |sent|
    ensures Heard(sent[..k + 1], from, a) == Heard(sent[..k], from, a) + HeardFrom(sent[k], from, a)
  {
    assert sent[..k + 1] == sent[..k] + [sent[k]];
  }

  /** Statement k of a batch accuses nobody when it is imported after those before it. */
  ghost predicate Quiet(ctx: Context, sent: seq<Signed>, from: Option<AuthorityId>, k: nat)
    requires Injective(ctx) && k < |sent|
  {
    Consider(ctx, Replay(ctx, NO_VOTES, sent[..k], from), sent[k]).misbehavior.None?
  }

  lemma BatchIsQuiet(ctx: Context, said: set<Signed>, t: Votes, sent: seq<Signed>, from: Option<AuthorityId>, k: nat)
    requires Inv(ctx, said, t) && Injective(ctx) && FullBatch(ctx, t, sent) && k < |sent|
    ensures Quiet(ctx, sent, from, k)
  {
    ReplayCopies(ctx, said, t, sent, from, k);
    StatementLands(ctx, said, t, sent[..k], Replay(ctx, NO_VOTES, sent[..k], from), sent[k]);
  }

  lemma NextIsHeard(ctx: Context, copy: Votes, s: Signed, from: Option<AuthorityId>, a: AuthorityId)
    requires Sound(ctx, copy) && Injective(ctx) && Consider(ctx, copy, s).misbehavior.None?
    ensures KnownOf(Imported(ctx, copy, s, from), a) == KnownOf(copy, a) + HeardFrom(s, from, a)
  {
    ConsiderKeepsKnown(ctx, copy, s, a);
    SettledKnows(Consider(ctx, copy, s), s, from, a);
  }

  lemma ReplayNext(ctx: Context, sent: seq<Signed>, from: Option<AuthorityId>, k: nat)
    requires Injective(ctx) && k < |sent|
    ensures Replay(ctx, NO_VOTES, sent[..k + 1], from) == Imported(ctx, Replay(ctx, NO_VOTES, sent[..k], from), sent[k], from)
  {
    assert sent[..k + 1][..k] == sent[..k];
  }

  ghost function KnownAfter(ctx: Context, sent: seq<Signed>, from: Option<AuthorityId>, k: nat, a: AuthorityId): set<Trace>
    requires Injective(ctx) && k <= |sent|
  {
    KnownOf(Replay(ctx, NO_VOTES, sent[..k], from), a)
  }

  lemma KnowsNext(ctx: Context, sent: seq<Signed>, from: Option<AuthorityId>, k: nat, a: AuthorityId)
    requires Injective(ctx) && k < |sent| && Quiet(ctx, sent, from, k)
    ensures KnownAfter(ctx, sent, from, k + 1, a) == KnownAfter(ctx, sent, from, k, a) + HeardFrom(sent[k], from, a)
  {
    ReplayNext(ctx, sent, from, k);
    NextIsHeard(ctx, Replay(ctx, NO_VOTES, sent[..k], from), sent[k], from, a);
  }

  lemma {:induction false} ReplayKnows(ctx: Context, sent: seq<Signed>, from: Option<AuthorityId>, n: nat, a: AuthorityId)
    requires Injective(ctx) && n <= |sent| && forall k :: 0 <= k < n ==> Quiet(ctx, sent, from, k)
    ensures KnownAfter(ctx, sent, from, n, a) == Heard(sent[..n], from, a)
  {
    if n == 0 {
      assert sent[..n] == [];
    } else {
      ReplayKnows(ctx, sent, from, n - 1, a);
      KnowsNext(ctx, sent, from, n - 1, a);
      HeardNext(sent, from, n - 1, a);
    }
  }

  /** Importing a table's statements into an empty table rebuilds its votes, its bad marks, its
      counts and the proposals on record, notes who said and who passed on what, and accuses
      nobody. */
  lemma GossipRoundTrip(ctx: Context, said: set<Signed>, t: Votes, sent: seq<Signed>, from: Option<AuthorityId>)
    requires Inv(ctx, said, t) && Injective(ctx) && FullBatch(ctx, t, sent)
    ensures var copy := Replay(ctx, NO_VOTES, sent, from);
            && copy.misbehavior == map[]
            && copy.candidates.Keys == t.candidates.Keys
            && (forall d :: d in t.candidates ==> SameCandidate(t.candidates[d], copy.candidates[d]))
            && (Counted(ctx, t) && SomeVoteNeeded(ctx) ==> copy.includable == t.includable)
            && (forall a :: ProposalOf(copy, a) == ProposalOnRecord(t, a) && KnownOf(copy, a) == Heard(sent, from, a))
  {
    var copy := Replay(ctx, NO_VOTES, sent, from);
    assert Copies(ctx, said, t, sent, copy) by {
      assert sent[..|sent|] == sent;
      ReplayCopies(ctx, said, t, sent, from, |sent|);
    }
    CopyIsSame(ctx, said, t, sent, copy);
    forall k | 0 <= k < |sent| ensures Quiet(ctx, sent, from, k) {
      BatchIsQuiet(ctx, said, t, sent, from, k);
    }
    forall a ensures ProposalOf(copy, a) == ProposalOnRecord(t, a) && KnownOf(copy, a) == Heard(sent, from, a) {
      ProposalsAreCopied(ctx, said, t, sent, copy, a);
      ReplayKnows(ctx, sent, from, |sent|, a);
    }
    if Counted(ctx, t) && SomeVoteNeeded(ctx) {
      ReplayIsCounted(ctx, sent, from);
      SameCandidatesSameCounts(ctx, t, copy);
    }
  }

  lemma CopyIsSame(ctx: Context, said: set<Signed>, t: Votes, sent: seq<Signed>, copy: Votes)
    requires Copies(ctx, said, t, sent, copy) && Injective(ctx) && FullBatch(ctx, t, sent)
    ensures copy.candidates.Keys == t.candidates.Keys
    ensures forall d :: d in t.candidates ==> SameCandidate(t.candidates[d], copy.candidates[d])
  {
    SameKeySets(ctx, said, t, sent, copy);
    forall d | d in t.candidates ensures SameCandidate(t.candidates[d], copy.candidates[d]) {
      SameData(ctx, said, t, sent, copy, d);
    }
  }

  lemma SameKeySets(ctx: Context, said: set<Signed>, t: Votes, sent: seq<Signed>, copy: Votes)
    requires Copies(ctx, said, t, sent, copy) && FullBatch(ctx, t, sent)
    ensures copy.candidates.Keys == t.candidates.Keys
  {
    forall d ensures d in t.candidates <==> d in copy.candidates {
      SameKeys(ctx, said, t, sent, copy, d);
    }
  }

  lemma SameKeys(ctx: Context, said: set<Signed>, t: Votes, sent: seq<Signed>, copy: Votes, d: Digest)
    requires Copies(ctx, said, t, sent, copy) && FullBatch(ctx, t, sent)
    ensures d in t.candidates <==> d in copy.candidates
  {
    if d in t.candidates {
      assert HasIssuer(t.candidates[d]);
      var a :| a in t.candidates[d].validity && t.candidates[d].validity[a].IssuedVote?;
      assert Recorded(ctx, t, Signed(Propose(t.candidates[d].candidate), t.candidates[d].validity[a].signature, a));
    }
    if d in copy.candidates {
      assert HasIssuer(copy.candidates[d]);
      var a :| a in copy.candidates[d].validity && copy.candidates[d].validity[a].IssuedVote?;
      CopiedVote(ctx, said, t, sent, copy, d, a);
    }
  }

  lemma SameData(ctx: Context, said: set<Signed>, t: Votes, sent: seq<Signed>, copy: Votes, d: Digest)
    requires Copies(ctx, said, t, sent, copy) && Injective(ctx) && FullBatch(ctx, t, sent)
    requires d in t.candidates && d in copy.candidates
    ensures SameCandidate(t.candidates[d], copy.candidates[d])
  {
    var data, data' := t.candidates[d], copy.candidates[d];
    CopiedCandidate(ctx, t, copy, d);
    forall a ensures SameAt(data.validity, data'.validity, a) && SameAt(data.availability, data'.availability, a) {
      SameVoteOf(ctx, said, t, sent, copy, d, a);
      SameAvailabilityOf(ctx, said, t, sent, copy, d, a);
    }
    SameEverywhere(data.validity, data'.validity);
    SameEverywhere(data.availability, data'.availability);
    SameVotesSameMarks(ctx, d, data, data');
  }

  ghost predicate SameAt<K, V>(m: map<K, V>, m': map<K, V>, k: K) {
    (k in m <==> k in m') && (k in m ==> m'[k] == m[k])
  }

  lemma SameEverywhere<K(!new), V>(m: map<K, V>, m': map<K, V>)
    requires forall k :: SameAt(m, m', k)
    ensures m == m'
  {
    forall k ensures k in m <==> k in m'
             ensures k in m ==> m'[k] == m[k] {
      assert SameAt(m, m', k);
    }
  }

  lemma SameVotesSameMarks(ctx: Context, d: Digest, data: CandidateData, data': CandidateData)
    requires SoundCandidate(ctx, d, data) && SoundCandidate(ctx, d, data') && data.validity == data'.validity
    ensures Elems(data.badBy) == Elems(data'.badBy) && |data.badBy| == |data'.badBy|
  {
    DistinctCount(data.badBy);
    DistinctCount(data'.badBy);
  }

  lemma SameVoteOf(ctx: Context, said: set<Signed>, t: Votes, sent: seq<Signed>, copy: Votes, d: Digest, a: AuthorityId)
    requires Copies(ctx, said, t, sent, copy) && FullBatch(ctx, t, sent) && d in t.candidates && d in copy.candidates
    ensures SameAt(t.candidates[d].validity, copy.candidates[d].validity, a)
  {
    CopiedVote(ctx, said, t, sent, copy, d, a);
    var data := t.candidates[d];
    if a in data.validity {
      assert SoundCandidate(ctx, d, data);
      assert Recorded(ctx, t, Signed(StatementFor(data, d, data.validity[a]), data.validity[a].signature, a));
    }
  }

  lemma SameAvailabilityOf(ctx: Context, said: set<Signed>, t: Votes, sent: seq<Signed>, copy: Votes, d: Digest, a: AuthorityId)
    requires Copies(ctx, said, t, sent, copy) && FullBatch(ctx, t, sent) && d in t.candidates && d in copy.candidates
    ensures SameAt(t.candidates[d].availability, copy.candidates[d].availability, a)
  {
    CopiedVote(ctx, said, t, sent, copy, d, a);
    var data := t.candidates[d];
    if a in data.availability {
      assert Recorded(ctx, t, Signed(Available(d), data.availability[a], a));
    }
  }

  lemma {:induction false} ReplayIsCounted(ctx: Context, sent: seq<Signed>, from: Option<AuthorityId>)
    requires Injective(ctx) && SomeVoteNeeded(ctx)
    ensures Counted(ctx, Replay(ctx, NO_VOTES, sent, from))
  {
    if sent != [] {
      var init := sent[..|sent| - 1];
      ReplayIsCounted(ctx, init, from);
      ImportIsSound(ctx, Replay(ctx, NO_VOTES, init, from), sent[|sent| - 1], from);
    }
  }

  lemma SameCandidatesSameCounts(ctx: Context, t: Votes, copy: Votes)
    requires Counted(ctx, t) && Counted(ctx, copy) && copy.candidates.Keys == t.candidates.Keys
    requires forall d :: d in t.candidates ==> SameCandidate(t.candidates[d], copy.candidates[d])
    ensures copy.includable == t.includable
  {
    forall g ensures g in copy.includable <==> g in t.includable
             ensures g in t.includable ==> copy.includable[g] == t.includable[g] {
      assert CountedAt(ctx, t, g) && CountedAt(ctx, copy, g);
      forall d | d in t.candidates ensures Approved(ctx, t.candidates[d]) <==> Approved(ctx, copy.candidates[d]) {
        assert SameCandidate(t.candidates[d], copy.candidates[d]);
      }
      assert Live(ctx, copy, g) == Live(ctx, t, g);
    }
  }

  // ---------- What filling a batch leaves behind ----------

  ghost predicate Repeated(targets: seq<AuthorityId>, a: AuthorityId) {
    multiset(targets)[a] >= 2
  }

  /** A target's entry once the batch is filled. The entries are moved out of the table target
      by target and put back at the end, so a target listed twice is put back blank. */
  ghost function TargetData(t: Votes, targets: seq<AuthorityId>, traces: set<Trace>, a: AuthorityId): AuthorityData {
    if Repeated(targets, a) then AuthorityData(None, traces)
    else AuthorityData(ProposalOf(t, a), KnownOf(t, a) + traces)
  }

  ghost function Gossiped(t: Votes, targets: seq<AuthorityId>, traces: set<Trace>): Votes {
    t.(authorities := map a | a in t.authorities.Keys + Elems(targets) ::
                        if a in targets then TargetData(t, targets, traces, a) else t.authorities[a])
  }

  /** Whom a batch was filled for is known to have seen what is in it, besides what it had seen; a
      target listed twice is known to have seen that only; nobody else's knowledge changes. */
  lemma GossipKnows(t: Votes, targets: seq<AuthorityId>, traces: set<Trace>, a: AuthorityId)
    ensures KnownOf(Gossiped(t, targets, traces), a)
         == if a !in targets then KnownOf(t, a) else if multiset(targets)[a] >= 2 then traces else KnownOf(t, a) + traces
  {
  }

  /** Gossip leaves every vote and proposal alone unless a proposer is a target twice. */
  lemma GossipKeepsVotesIff(t: Votes, targets: seq<AuthorityId>, traces: set<Trace>)
    ensures SameVotes(t, Gossiped(t, targets, traces)) <==> forall a :: Repeated(targets, a) ==> ProposalOf(t, a).None?
  {
    var t' := Gossiped(t, targets, traces);
    assert forall a :: Repeated(targets, a) ==> a in targets;
    assert forall a :: ProposalOf(t', a) == if Repeated(targets, a) then None else ProposalOf(t, a);
  }
}
