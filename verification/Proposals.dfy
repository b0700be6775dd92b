/** From the statement table to the block: what the table proposes passes the checks on heads. */
module Proposals {
  import opened Statements
  import opened TableInvariants
  import opened TableTheorems
  import opened Detection
  import opened StatementTable
  import Heads

  ghost function Groups(ctx: Context, r: seq<Candidate>): (s: seq<nat>)
    ensures |s| == |r| && forall i :: 0 <= i < |r| ==> s[i] == ctx.group(r[i])
  {
    seq(|r|, i requires 0 <= i < |r| => ctx.group(r[i]))
  }

  /** An includable candidate was issued by a member of its group. */
  lemma ProposedGroupHasMember(ctx: Context, said: set<Signed>, t: Votes, c: Candidate) returns (a: AuthorityId)
    requires Inv(ctx, said, t) && ctx.digest(c) in t.candidates && t.candidates[ctx.digest(c)].candidate == c
    ensures ctx.isMember(a, ctx.group(c))
  {
    var d := ctx.digest(c);
    assert HasIssuer(t.candidates[d]) && SoundCandidate(ctx, d, t.candidates[d]);
    a :| a in t.candidates[d].validity && t.candidates[d].validity[a].IssuedVote?;
    assert BackedVote(ctx, said, t, d, a);
  }

  /** On every run, if only active parachains have members, the proposed candidates are accepted
      by both checks on heads. */
  lemma ProposedCandidatesPass(ctx: Context, events: seq<Event>, less: (Candidate, Candidate) -> bool, r: seq<Candidate>, active: seq<nat>)
    requires Injective(ctx) && Fair(events) && Chosen(ctx, After(ctx, events), less, r)
    requires forall a, g: nat :: ctx.isMember(a, g) ==> g in active
    ensures Heads.Proper(active, Groups(ctx, r))
  {
    var t := After(ctx, events);
    EveryRunIsBacked(ctx, events);
    forall i | 0 <= i < |r| ensures ctx.group(r[i]) in active {
      assert Best(ctx, t, less, r[i]);
      var a := ProposedGroupHasMember(ctx, Said(events), t, r[i]);
    }
  }

  lemma {:induction false} VotesAreKept(ctx: Context, events: seq<Event>, n: nat)
    requires Injective(ctx) && Fair(events) && n <= |events|
    ensures Fair(events[..n]) && Keeps(After(ctx, events[..n]), After(ctx, events))
  {
    if n < |events| {
      var init := events[..|events| - 1];
      assert init[..n] == events[..n];
      VotesAreKept(ctx, init, n);
      NextKeeps(ctx, After(ctx, init), events[|events| - 1]);
      KeepsComposes(After(ctx, events[..n]), After(ctx, init), After(ctx, events));
    } else {
      assert events[..n] == events;
    }
  }

  /** Once a vote against a candidate is on record, no later list of proposals has it. */
  lemma RejectedIsNeverProposed(ctx: Context, events: seq<Event>, n: nat, a: AuthorityId, d: Digest, less: (Candidate, Candidate) -> bool, r: seq<Candidate>)
    requires Injective(ctx) && Fair(events) && n <= |events| && Fair(events[..n])
    requires var t := After(ctx, events[..n]);
             d in t.candidates && a in t.candidates[d].validity && t.candidates[d].validity[a].InvalidVote?
    requires Chosen(ctx, After(ctx, events), less, r)
    ensures forall i :: 0 <= i < |r| ==> ctx.digest(r[i]) != d
  {
    VotesAreKept(ctx, events, n);
    assert KeepsAt(After(ctx, events[..n]).candidates[d], After(ctx, events).candidates[d]);
    forall i | 0 <= i < |r| ensures ctx.digest(r[i]) != d {
      ChosenAreApproved(ctx, After(ctx, events), less, r, i);
    }
  }
}
