/** The statement table: the votes of authorities on candidates, as a transition function
    over table values. */
module Statements {
  import opened Primitives

  type AuthorityId(==, !new)
  type Digest(==, !new)
  type Signature(==, 00, !new)
  type Candidate(==, !new)
  type GroupId = nat

  /** What the table is told about candidates and authorities. `requisite` gives the numbers
      of validity and of availability votes a group needs. */
  datatype Context = Context(
    digest: Candidate -> Digest,
    group: Candidate -> GroupId,
    isMember: (AuthorityId, GroupId) -> bool,
    isGuarantor: (AuthorityId, GroupId) -> bool,
    requisite: GroupId -> (nat, nat))

  ghost predicate Injective(ctx: Context) {
    forall c, c' :: ctx.digest(c) == ctx.digest(c') ==> c == c'
  }

  datatype Statement =
    | Propose(candidate: Candidate)
    | Valid(digest: Digest)
    | Invalid(digest: Digest)
    | Available(digest: Digest)

  datatype Signed = Signed(statement: Statement, signature: Signature, sender: AuthorityId)

  /** The class of statements a peer is known to have seen. */
  datatype Trace =
    | ProposeTrace(author: AuthorityId)
    | ValidTrace(author: AuthorityId, digest: Digest)
    | InvalidTrace(author: AuthorityId, digest: Digest)
    | AvailableTrace(author: AuthorityId, digest: Digest)

  datatype Vote = IssuedVote(signature: Signature) | ValidVote(signature: Signature) | InvalidVote(signature: Signature)

  datatype Misbehavior =
    | IssuedAndValidity(candidate: Candidate, issued: Signature, digest: Digest, good: Signature)
    | IssuedAndInvalidity(candidate: Candidate, issued: Signature, digest: Digest, bad: Signature)
    | ValidityAndInvalidity(digest: Digest, good: Signature, bad: Signature)
    | MultipleCandidates(first: (Candidate, Signature), second: (Candidate, Signature))
    | Unauthorized(statement: Signed)

  datatype CandidateData = CandidateData(
    group: GroupId, candidate: Candidate,
    validity: map<AuthorityId, Vote>, availability: map<AuthorityId, Signature>, badBy: seq<AuthorityId>)

  datatype AuthorityData = AuthorityData(proposal: Option<(Digest, Signature)>, known: set<Trace>)

  datatype Summary = Summary(candidate: Digest, group: GroupId, validityVotes: nat, availabilityVotes: nat, signalledBad: bool)

  /** The contents of a Table object. */
  datatype Votes = Votes(
    authorities: map<AuthorityId, AuthorityData>,
    misbehavior: map<AuthorityId, Misbehavior>,
    candidates: map<Digest, CandidateData>,
    includable: map<GroupId, nat>)

  const NO_VOTES: Votes := Votes(map[], map[], map[], map[])

  datatype Outcome = Outcome(votes: Votes, misbehavior: Option<Misbehavior>, summary: Option<Summary>)

  // ---------- Candidates ----------

  predicate CanBeIncluded(data: CandidateData, needed: (nat, nat)) {
    data.badBy == [] && |data.validity| >= needed.0 && |data.availability| >= needed.1
  }

  predicate Includable(ctx: Context, data: CandidateData) {
    CanBeIncluded(data, ctx.requisite(data.group))
  }

  function Summarize(data: CandidateData, digest: Digest): Summary
    requires |data.badBy| <= |data.validity|
  {
    Summary(digest, data.group, |data.validity| - |data.badBy|, |data.availability|, data.badBy != [])
  }

  /** The cached number of includable candidates per group, after one candidate changed. */
  function Adjusted(counts: map<GroupId, nat>, group: GroupId, was: bool, now: bool): map<GroupId, nat>
    requires forall g :: g in counts ==> counts[g] > 0
  {
    if was && !now && group in counts then
      if counts[group] == 1 then counts - {group} else counts[group := counts[group] - 1]
    else if !was && now then
      counts[group := (if group in counts then counts[group] else 0) + 1]
    else counts
  }

  // ---------- What an import requires of the table ----------

  /** The facts behind the table's informal panic arguments. */
  ghost predicate Sound(ctx: Context, t: Votes) {
    && (forall d :: d in t.candidates ==> SoundCandidate(ctx, d, t.candidates[d]))
    && (forall a :: a in t.authorities && t.authorities[a].proposal.Some? ==> t.authorities[a].proposal.value.0 in t.candidates)
    && (forall g :: g in t.includable ==> t.includable[g] > 0)
  }

  ghost predicate SoundCandidate(ctx: Context, d: Digest, data: CandidateData) {
    && ctx.digest(data.candidate) == d && ctx.group(data.candidate) == data.group
    && NoRepeat(data.badBy) && Elems(data.badBy) == BadVoters(data.validity)
  }

  ghost predicate NoRepeat(s: seq<AuthorityId>) {
    forall i, j :: 0 <= i < j < |s| ==> s[i] != s[j]
  }

  ghost function BadVoters(validity: map<AuthorityId, Vote>): set<AuthorityId> {
    set a | a in validity && validity[a].InvalidVote?
  }

  lemma {:induction false} DistinctCount(s: seq<AuthorityId>)
    requires NoRepeat(s)
    ensures |Elems(s)| == |s|
  {
    if s != [] {
      var init, last := s[..|s| - 1], s[|s| - 1];
      DistinctCount(init);
      assert Elems(s) == Elems(init) + {last};
    }
  }

  /** The subtraction in a summary does not underflow. */
  lemma BadAreVoters(ctx: Context, d: Digest, data: CandidateData)
    requires SoundCandidate(ctx, d, data)
    ensures |data.badBy| <= |data.validity|
  {
    DistinctCount(data.badBy);
    assert BadVoters(data.validity) <= data.validity.Keys;
    SubsetSize(BadVoters(data.validity), data.validity.Keys);
  }

  // ---------- Votes ----------

  function Cast(data: CandidateData, from: AuthorityId, vote: Vote): CandidateData {
    data.(validity := data.validity[from := vote],
          badBy := if vote.InvalidVote? then data.badBy + [from] else data.badBy)
  }

  lemma CastIsSound(ctx: Context, d: Digest, data: CandidateData, from: AuthorityId, vote: Vote)
    requires SoundCandidate(ctx, d, data) && from !in data.validity
    ensures SoundCandidate(ctx, d, Cast(data, from, vote))
  {
    var data' := Cast(data, from, vote);
    assert from !in Elems(data.badBy);
    assert forall i :: 0 <= i < |data.badBy| ==> data.badBy[i] in Elems(data.badBy);
    assert BadVoters(data'.validity) == BadVoters(data.validity) + (if vote.InvalidVote? then {from} else {});
    assert Elems(data.badBy + [from]) == Elems(data.badBy) + {from};
  }

  /** The proof that two different kinds of vote make, if they do. */
  function DoubleVote(candidate: Candidate, digest: Digest, earlier: Vote, later: Vote): Option<Misbehavior> {
    match (earlier, later)
    case (IssuedVote(i), ValidVote(g)) => Some(IssuedAndValidity(candidate, i, digest, g))
    case (ValidVote(g), IssuedVote(i)) => Some(IssuedAndValidity(candidate, i, digest, g))
    case (IssuedVote(i), InvalidVote(b)) => Some(IssuedAndInvalidity(candidate, i, digest, b))
    case (InvalidVote(b), IssuedVote(i)) => Some(IssuedAndInvalidity(candidate, i, digest, b))
    case (ValidVote(g), InvalidVote(b)) => Some(ValidityAndInvalidity(digest, g, b))
    case (InvalidVote(b), ValidVote(g)) => Some(ValidityAndInvalidity(digest, g, b))
    case _ => None
  }

  function Recounted(ctx: Context, t: Votes, digest: Digest, data: CandidateData): Votes
    requires digest in t.candidates
    requires forall g :: g in t.includable ==> t.includable[g] > 0
  {
    var before := t.candidates[digest];
    t.(candidates := t.candidates[digest := data],
       includable := Adjusted(t.includable, before.group, Includable(ctx, before), Includable(ctx, data)))
  }

  function ValidityVote(ctx: Context, t: Votes, from: AuthorityId, digest: Digest, vote: Vote): Outcome
    requires Sound(ctx, t)
    requires vote.IssuedVote? && digest in t.candidates ==> ctx.isMember(from, t.candidates[digest].group)
  {
    if digest !in t.candidates then Outcome(t, None, None)
    else
      var data := t.candidates[digest];
      if !ctx.isMember(from, data.group) then
        var statement := if vote.ValidVote? then Valid(digest) else Invalid(digest);
        Outcome(t, Some(Unauthorized(Signed(statement, vote.signature, from))), None)
      else if from in data.validity then
        Outcome(t, DoubleVote(data.candidate, digest, data.validity[from], vote), None)
      else
        CastIsSound(ctx, digest, data, from, vote);
        BadAreVoters(ctx, digest, Cast(data, from, vote));
        Outcome(Recounted(ctx, t, digest, Cast(data, from, vote)), None, Some(Summarize(Cast(data, from, vote), digest)))
  }

  function AvailabilityVote(ctx: Context, t: Votes, from: AuthorityId, digest: Digest, signature: Signature): Outcome
    requires Sound(ctx, t)
  {
    if digest !in t.candidates then Outcome(t, None, None)
    else
      var data := t.candidates[digest];
      if !ctx.isGuarantor(from, data.group) then
        Outcome(t, Some(Unauthorized(Signed(Available(digest), signature, from))), None)
      else
        var data' := data.(availability := data.availability[from := signature]);
        BadAreVoters(ctx, digest, data);
        Outcome(Recounted(ctx, t, digest, data'), None, Some(Summarize(data', digest)))
  }

  // ---------- Proposals ----------

  function KnownOf(t: Votes, a: AuthorityId): set<Trace> {
    if a in t.authorities then t.authorities[a].known else {}
  }

  function ProposalOf(t: Votes, a: AuthorityId): Option<(Digest, Signature)> {
    if a in t.authorities then t.authorities[a].proposal else None
  }

  function FreshCandidate(ctx: Context, candidate: Candidate): CandidateData {
    CandidateData(ctx.group(candidate), candidate, map[], map[], [])
  }

  /** The table once a first proposal of an authority is noted. */
  function Proposed(ctx: Context, t: Votes, from: AuthorityId, candidate: Candidate, signature: Signature): Votes {
    var digest := ctx.digest(candidate);
    t.(authorities := t.authorities[from := AuthorityData(Some((digest, signature)), KnownOf(t, from))],
       candidates := if digest in t.candidates then t.candidates else t.candidates[digest := FreshCandidate(ctx, candidate)])
  }

  lemma ProposedIsSound(ctx: Context, t: Votes, from: AuthorityId, candidate: Candidate, signature: Signature)
    requires Sound(ctx, t)
    ensures Sound(ctx, Proposed(ctx, t, from, candidate, signature))
  {
  }

  lemma ProposerIsMember(ctx: Context, t: Votes, from: AuthorityId, candidate: Candidate)
    requires Sound(ctx, t) && Injective(ctx) && ctx.isMember(from, ctx.group(candidate))
    ensures var d := ctx.digest(candidate); d in t.candidates ==> ctx.isMember(from, t.candidates[d].group)
  {
  }

  ghost function ImportCandidate(ctx: Context, t: Votes, from: AuthorityId, candidate: Candidate, signature: Signature): Outcome
    requires Sound(ctx, t) && Injective(ctx)
  {
    var digest := ctx.digest(candidate);
    if !ctx.isMember(from, ctx.group(candidate)) then
      Outcome(t, Some(Unauthorized(Signed(Propose(candidate), signature, from))), None)
    else
      match ProposalOf(t, from)
      case Some(earlier) =>
        if earlier.0 != digest then
          Outcome(t, Some(MultipleCandidates((t.candidates[earlier.0].candidate, earlier.1), (candidate, signature))), None)
        else
          ProposerIsMember(ctx, t, from, candidate);
          ValidityVote(ctx, t, from, digest, IssuedVote(signature))
      case None =>
        var t' := Proposed(ctx, t, from, candidate, signature);
        ProposedIsSound(ctx, t, from, candidate, signature);
        ProposerIsMember(ctx, t', from, candidate);
        ValidityVote(ctx, t', from, digest, IssuedVote(signature))
  }

  // ---------- Imports ----------

  function TraceOf(s: Signed): Trace {
    match s.statement
    case Propose(_) => ProposeTrace(s.sender)
    case Valid(d) => ValidTrace(s.sender, d)
    case Invalid(d) => InvalidTrace(s.sender, d)
    case Available(d) => AvailableTrace(s.sender, d)
  }

  function Seen(t: Votes, trace: Trace, seer: AuthorityId): Votes {
    t.(authorities := t.authorities[seer := AuthorityData(ProposalOf(t, seer), KnownOf(t, seer) + {trace})])
  }

  ghost function Consider(ctx: Context, t: Votes, s: Signed): Outcome
    requires Sound(ctx, t) && Injective(ctx)
  {
    match s.statement
    case Propose(c) => ImportCandidate(ctx, t, s.sender, c, s.signature)
    case Valid(d) => ValidityVote(ctx, t, s.sender, d, ValidVote(s.signature))
    case Invalid(d) => ValidityVote(ctx, t, s.sender, d, InvalidVote(s.signature))
    case Available(d) => AvailabilityVote(ctx, t, s.sender, d, s.signature)
  }

  function Settled(o: Outcome, s: Signed, from: Option<AuthorityId>): Votes {
    if o.misbehavior.Some? then o.votes.(misbehavior := o.votes.misbehavior[s.sender := o.misbehavior.value])
    else
      var t := if from.Some? then Seen(o.votes, TraceOf(s), from.value) else o.votes;
      Seen(t, TraceOf(s), s.sender)
  }

  /** The table after importing a statement received from `from`. */
  ghost function Imported(ctx: Context, t: Votes, s: Signed, from: Option<AuthorityId>): Votes
    requires Sound(ctx, t) && Injective(ctx)
  {
    Settled(Consider(ctx, t, s), s, from)
  }
}
