/** Filling a batch of statements for some target peers: a loop over the votes of the table that
    sends every statement some target has not seen, proposals before votes, until the batch is
    full. Candidates and voters are visited in an arbitrary order. */
module Batches {
  import opened Primitives
  import opened Statements
  import opened TableInvariants
  import opened Gossip

  type Targets = seq<(AuthorityId, AuthorityData)>

  const BLANK := AuthorityData(None, {})

  // ---------- What may be sent ----------

  ghost function Traces(sent: seq<Signed>): set<Trace> {
    set s | s in sent :: TraceOf(s)
  }

  /** What the i-th target is taken to know at first: nothing, if it was listed before. */
  ghost function KnownAtFirst(t: Votes, targets: seq<AuthorityId>, i: nat): set<Trace>
    requires i < |targets|
  {
    if targets[i] in targets[..i] then {} else KnownOf(t, targets[i])
  }

  ghost predicate AllKnow(t: Votes, targets: seq<AuthorityId>, trace: Trace) {
    forall i :: 0 <= i < |targets| ==> trace in KnownAtFirst(t, targets, i)
  }

  /** Every target has seen the statement, before the batch or in it. */
  ghost predicate Handled(t: Votes, targets: seq<AuthorityId>, sent: seq<Signed>, s: Signed) {
    AllKnow(t, targets, TraceOf(s)) || TraceOf(s) in Traces(sent)
  }

  ghost predicate ProposalsHandled(ctx: Context, t: Votes, targets: seq<AuthorityId>, sent: seq<Signed>, d: Digest) {
    forall p :: Recorded(ctx, t, p) && p.statement.Propose? && DigestOf(ctx, p) == d ==> Handled(t, targets, sent, p)
  }

  /** The statement at position `j` is news to some target, is sent once, and follows the
      proposals of its candidate. */
  ghost predicate ProperlySent(ctx: Context, t: Votes, targets: seq<AuthorityId>, sent: seq<Signed>, j: nat)
    requires j < |sent|
  {
    && Recorded(ctx, t, sent[j]) && !Handled(t, targets, sent[..j], sent[j])
    && (!sent[j].statement.Propose? ==> ProposalsHandled(ctx, t, targets, sent[..j], DigestOf(ctx, sent[j])))
  }

  ghost predicate Batch(ctx: Context, t: Votes, targets: seq<AuthorityId>, sent: seq<Signed>) {
    forall j: nat :: j < |sent| ==> ProperlySent(ctx, t, targets, sent, j)
  }

  ghost predicate AllHandled(ctx: Context, t: Votes, targets: seq<AuthorityId>, sent: seq<Signed>, d: Digest) {
    forall s :: Recorded(ctx, t, s) && DigestOf(ctx, s) == d ==> Handled(t, targets, sent, s)
  }

  // ---------- Targets ----------

  ghost predicate Tracks(t: Votes, targets: seq<AuthorityId>, data: Targets, traces: set<Trace>) {
    && |data| == |targets|
    && forall i :: 0 <= i < |data| ==> data[i] == (targets[i], DataOf(t, targets, traces, i))
  }

  ghost function DataOf(t: Votes, targets: seq<AuthorityId>, traces: set<Trace>, i: nat): AuthorityData
    requires i < |targets|
  {
    AuthorityData(if targets[i] in targets[..i] then None else ProposalOf(t, targets[i]), KnownAtFirst(t, targets, i) + traces)
  }

  /** The targets' entries, moved out of the table one by one. */
  method FetchTargets(authorities: map<AuthorityId, AuthorityData>, targets: seq<AuthorityId>, ghost t: Votes)
    returns (rest: map<AuthorityId, AuthorityData>, data: Targets)
    requires authorities == t.authorities
    ensures Tracks(t, targets, data, {})
    ensures rest.Keys == authorities.Keys && forall a :: a in rest && a !in targets ==> rest[a] == authorities[a]
  {
    rest, data := authorities, [];
    for i := 0 to |targets|
      invariant |data| == i
      invariant forall j :: 0 <= j < i ==> data[j] == (targets[j], DataOf(t, targets, {}, j))
      invariant rest.Keys == authorities.Keys
      invariant forall a :: a in rest ==> rest[a] == if a in targets[..i] then BLANK else authorities[a]
    {
      var a := targets[i];
      assert targets[..i + 1] == targets[..i] + [a];
      if a in rest {
        data, rest := data + [(a, rest[a])], rest[a := BLANK];
      } else {
        data := data + [(a, BLANK)];
      }
      assert KnownAtFirst(t, targets, i) + {} == KnownAtFirst(t, targets, i);
    }
  }

  /** The entries put back in order, a later entry over an earlier one. */
  method RestoreTargets(rest: map<AuthorityId, AuthorityData>, data: Targets, ghost t: Votes, ghost targets: seq<AuthorityId>, ghost traces: set<Trace>)
    returns (authorities: map<AuthorityId, AuthorityData>)
    requires Tracks(t, targets, data, traces)
    requires rest.Keys == t.authorities.Keys && forall a :: a in rest && a !in targets ==> rest[a] == t.authorities[a]
    ensures authorities == Gossiped(t, targets, traces).authorities
  {
    authorities := rest;
    for i := 0 to |data|
      invariant Restored(t, rest, targets[..i], traces, authorities)
    {
      RestoreNext(t, rest, targets, traces, i, authorities);
      authorities := authorities[data[i].0 := data[i].1];
    }
    assert targets[..|data|] == targets;
  }

  ghost predicate Restored(t: Votes, rest: map<AuthorityId, AuthorityData>, targets: seq<AuthorityId>, traces: set<Trace>, m: map<AuthorityId, AuthorityData>) {
    && m.Keys == rest.Keys + Elems(targets)
    && (forall a :: a in targets ==> m[a] == TargetData(t, targets, traces, a))
    && (forall a :: a in rest && a !in targets ==> m[a] == rest[a])
  }

  lemma RestoreNext(t: Votes, rest: map<AuthorityId, AuthorityData>, targets: seq<AuthorityId>, traces: set<Trace>, i: nat, m: map<AuthorityId, AuthorityData>)
    requires i < |targets| && Restored(t, rest, targets[..i], traces, m)
    ensures Restored(t, rest, targets[..i + 1], traces, m[targets[i] := DataOf(t, targets, traces, i)])
  {
    var m', before, now := m[targets[i] := DataOf(t, targets, traces, i)], targets[..i], targets[..i + 1];
    RepeatedNow(targets, i);
    forall a | a in now ensures m'[a] == TargetData(t, now, traces, a) {
      if a != targets[i] {
        assert a in before && m[a] == TargetData(t, before, traces, a);
      } else {
        assert Repeated(now, a) <==> a in before;
      }
    }
  }

  lemma RepeatedNow(targets: seq<AuthorityId>, i: nat)
    requires i < |targets|
    ensures Elems(targets[..i + 1]) == Elems(targets[..i]) + {targets[i]}
    ensures forall a :: Repeated(targets[..i + 1], a) <==> if a == targets[i] then a in targets[..i] else Repeated(targets[..i], a)
    ensures forall a :: a in targets[..i + 1] <==> a in targets[..i] || a == targets[i]
  {
    assert targets[..i + 1] == targets[..i] + [targets[i]];
  }

  // ---------- Sending ----------

  /** A batch in the making: the targets' entries and the statements pushed. */
  datatype Filling = Filling(data: Targets, sent: seq<Signed>)

  ghost predicate Fills(ctx: Context, t: Votes, targets: seq<AuthorityId>, f: Filling) {
    Tracks(t, targets, f.data, Traces(f.sent)) && Batch(ctx, t, targets, f.sent)
  }

  ghost predicate Ready(ctx: Context, t: Votes, targets: seq<AuthorityId>, sent: seq<Signed>, s: Signed) {
    Recorded(ctx, t, s) && (!s.statement.Propose? ==> ProposalsHandled(ctx, t, targets, sent, DigestOf(ctx, s)))
  }

  /** The batch takes everything. */
  ghost predicate Unbounded(accepts: seq<Signed> -> bool) {
    forall x :: accepts(x)
  }

  lemma HandledGrows(t: Votes, targets: seq<AuthorityId>, sent: seq<Signed>, sent': seq<Signed>, s: Signed)
    requires sent <= sent' && Handled(t, targets, sent, s)
    ensures Handled(t, targets, sent', s)
  {
    if TraceOf(s) in Traces(sent) {
      var x :| x in sent && TraceOf(x) == TraceOf(s);
      assert x in sent';
    }
  }

  lemma ReadyGrows(ctx: Context, t: Votes, targets: seq<AuthorityId>, sent: seq<Signed>, sent': seq<Signed>, s: Signed)
    requires sent <= sent' && Ready(ctx, t, targets, sent, s)
    ensures Ready(ctx, t, targets, sent', s)
  {
    forall p | Handled(t, targets, sent, p) ensures Handled(t, targets, sent', p) {
      HandledGrows(t, targets, sent, sent', p);
    }
  }

  lemma NewsToSome(t: Votes, targets: seq<AuthorityId>, data: Targets, sent: seq<Signed>, s: Signed)
    requires Tracks(t, targets, data, Traces(sent))
    ensures (exists i :: 0 <= i < |data| && TraceOf(s) !in data[i].1.known) <==> !Handled(t, targets, sent, s)
  {
    assert forall i :: 0 <= i < |data| ==> data[i].1.known == KnownAtFirst(t, targets, i) + Traces(sent);
  }

  lemma TracesAppend(sent: seq<Signed>, s: Signed)
    ensures Traces(sent + [s]) == Traces(sent) + {TraceOf(s)}
  {
    assert forall x :: x in sent + [s] <==> x in sent || x == s;
  }

  lemma BatchAppend(ctx: Context, t: Votes, targets: seq<AuthorityId>, sent: seq<Signed>, s: Signed)
    requires Batch(ctx, t, targets, sent) && Ready(ctx, t, targets, sent, s) && !Handled(t, targets, sent, s)
    ensures Batch(ctx, t, targets, sent + [s])
  {
    forall j: nat | j < |sent + [s]| ensures ProperlySent(ctx, t, targets, sent + [s], j) {
      assert (sent + [s])[..j] == sent[..j];
      if j < |sent| {
        assert ProperlySent(ctx, t, targets, sent, j);
      } else {
        assert sent[..j] == sent;
      }
    }
  }

  function Marked(data: Targets, trace: Trace): (r: Targets)
    ensures |r| == |data|
  {
    seq(|data|, i requires 0 <= i < |data| => (data[i].0, data[i].1.(known := data[i].1.known + {trace})))
  }

  lemma MarkedTracks(t: Votes, targets: seq<AuthorityId>, data: Targets, traces: set<Trace>, trace: Trace)
    requires Tracks(t, targets, data, traces)
    ensures Tracks(t, targets, Marked(data, trace), traces + {trace})
  {
    forall i | 0 <= i < |data| ensures Marked(data, trace)[i] == (targets[i], DataOf(t, targets, traces + {trace}, i)) {
      assert KnownAtFirst(t, targets, i) + traces + {trace} == KnownAtFirst(t, targets, i) + (traces + {trace});
    }
  }

  method AttemptSend(accepts: seq<Signed> -> bool, f: Filling, s: Signed, ghost ctx: Context, ghost t: Votes, ghost targets: seq<AuthorityId>)
    returns (open: bool, f': Filling)
    requires Fills(ctx, t, targets, f) && Ready(ctx, t, targets, f.sent, s)
    ensures Fills(ctx, t, targets, f') && f.sent <= f'.sent
    ensures f'.sent == if open && !Handled(t, targets, f.sent, s) then f.sent + [s] else f.sent
    ensures if open then Handled(t, targets, f'.sent, s) else !Unbounded(accepts)
  {
    NewsToSome(t, targets, f.data, f.sent, s);
    open, f' := true, f;
    if exists i :: 0 <= i < |f.data| && TraceOf(s) !in f.data[i].1.known {
      if accepts(f.sent + [s]) {
        BatchAppend(ctx, t, targets, f.sent, s);
        TracesAppend(f.sent, s);
        MarkedTracks(t, targets, f.data, Traces(f.sent), TraceOf(s));
        f' := Filling(Marked(f.data, TraceOf(s)), f.sent + [s]);
      } else {
        open := false;
      }
    }
  }

  ghost predicate EachReady(ctx: Context, t: Votes, targets: seq<AuthorityId>, sent: seq<Signed>, todo: set<Signed>) {
    forall s :: s in todo ==> Ready(ctx, t, targets, sent, s)
  }

  ghost predicate EachHandled(t: Votes, targets: seq<AuthorityId>, sent: seq<Signed>, done: set<Signed>) {
    forall s :: s in done ==> Handled(t, targets, sent, s)
  }

  lemma EachGrows(ctx: Context, t: Votes, targets: seq<AuthorityId>, sent: seq<Signed>, sent': seq<Signed>, todo: set<Signed>, done: set<Signed>)
    requires sent <= sent' && EachReady(ctx, t, targets, sent, todo) && EachHandled(t, targets, sent, done)
    ensures EachReady(ctx, t, targets, sent', todo) && EachHandled(t, targets, sent', done)
  {
    forall s | s in todo ensures Ready(ctx, t, targets, sent', s) {
      ReadyGrows(ctx, t, targets, sent, sent', s);
    }
    forall s | s in done ensures Handled(t, targets, sent', s) {
      HandledGrows(t, targets, sent, sent', s);
    }
  }

  method SendEach(accepts: seq<Signed> -> bool, f: Filling, todo: set<Signed>, ghost ctx: Context, ghost t: Votes, ghost targets: seq<AuthorityId>)
    returns (open: bool, f': Filling)
    requires Fills(ctx, t, targets, f) && EachReady(ctx, t, targets, f.sent, todo)
    ensures Fills(ctx, t, targets, f') && f.sent <= f'.sent
    ensures if open then EachHandled(t, targets, f'.sent, todo) else !Unbounded(accepts)
  {
    open, f' := true, f;
    var rest := todo;
    while rest != {}
      invariant rest <= todo && open && f.sent <= f'.sent && Fills(ctx, t, targets, f')
      invariant EachReady(ctx, t, targets, f'.sent, rest) && EachHandled(t, targets, f'.sent, todo - rest)
      decreases |rest|
    {
      var s :| s in rest;
      ghost var sent := f'.sent;
      open, f' := AttemptSend(accepts, f', s, ctx, t, targets);
      if !open {
        return;
      }
      EachGrows(ctx, t, targets, sent, f'.sent, rest - {s}, todo - rest);
      assert todo - (rest - {s}) == (todo - rest) + {s};
      rest := rest - {s};
    }
    assert todo - {} == todo;
  }

  // ---------- Candidates ----------

  function ValidityStatements(data: CandidateData, d: Digest, issued: bool): set<Signed> {
    set a | a in data.validity && data.validity[a].IssuedVote? == issued ::
      Signed(StatementFor(data, d, data.validity[a]), data.validity[a].signature, a)
  }

  function AvailabilityStatements(data: CandidateData, d: Digest): set<Signed> {
    set a | a in data.availability :: Signed(Available(d), data.availability[a], a)
  }

  lemma StatementsOnRecord(ctx: Context, t: Votes, d: Digest, s: Signed)
    requires Sound(ctx, t) && d in t.candidates
    ensures Recorded(ctx, t, s) && DigestOf(ctx, s) == d <==>
              || s in ValidityStatements(t.candidates[d], d, true)
              || s in ValidityStatements(t.candidates[d], d, false)
              || s in AvailabilityStatements(t.candidates[d], d)
    ensures s in ValidityStatements(t.candidates[d], d, true) <==> Recorded(ctx, t, s) && DigestOf(ctx, s) == d && s.statement.Propose?
  {
    assert SoundCandidate(ctx, d, t.candidates[d]);
  }

  method SendCandidate(accepts: seq<Signed> -> bool, f: Filling, d: Digest, data: CandidateData, ghost ctx: Context, ghost t: Votes, ghost targets: seq<AuthorityId>)
    returns (open: bool, f': Filling)
    requires Fills(ctx, t, targets, f) && Sound(ctx, t) && d in t.candidates && data == t.candidates[d]
    ensures Fills(ctx, t, targets, f') && f.sent <= f'.sent
    ensures if open then AllHandled(ctx, t, targets, f'.sent, d) else !Unbounded(accepts)
  {
    var proposals, votes, availability := ValidityStatements(data, d, true), ValidityStatements(data, d, false), AvailabilityStatements(data, d);
    RecordIs(ctx, t, d);
    open, f' := SendEach(accepts, f, proposals, ctx, t, targets);
    if !open {
      return;
    }
    assert ProposalsHandled(ctx, t, targets, f'.sent, d);
    ghost var sent := f'.sent;
    open, f' := SendEach(accepts, f', votes, ctx, t, targets);
    if !open {
      return;
    }
    EachGrows(ctx, t, targets, sent, f'.sent, availability, proposals);
    sent := f'.sent;
    open, f' := SendEach(accepts, f', availability, ctx, t, targets);
    if !open {
      return;
    }
    EachGrows(ctx, t, targets, sent, f'.sent, {}, proposals + votes);
  }

  lemma RecordIs(ctx: Context, t: Votes, d: Digest)
    requires Sound(ctx, t) && d in t.candidates
    ensures var data := t.candidates[d];
            forall s :: Recorded(ctx, t, s) && DigestOf(ctx, s) == d <==>
              s in ValidityStatements(data, d, true) || s in ValidityStatements(data, d, false) || s in AvailabilityStatements(data, d)
    ensures forall s :: s in ValidityStatements(t.candidates[d], d, true) <==> Recorded(ctx, t, s) && DigestOf(ctx, s) == d && s.statement.Propose?
  {
    forall s {
      StatementsOnRecord(ctx, t, d, s);
    }
  }

  /** All candidates, in any order, until the batch is full. */
  method SendAll(accepts: seq<Signed> -> bool, f: Filling, candidates: map<Digest, CandidateData>, ghost ctx: Context, ghost t: Votes, ghost targets: seq<AuthorityId>)
    returns (f': Filling)
    requires Fills(ctx, t, targets, f) && Sound(ctx, t) && candidates == t.candidates
    ensures Fills(ctx, t, targets, f')
    ensures Unbounded(accepts) ==> forall s :: Recorded(ctx, t, s) ==> Handled(t, targets, f'.sent, s)
  {
    f' := f;
    var rest := candidates.Keys;
    while rest != {}
      invariant rest <= candidates.Keys && Fills(ctx, t, targets, f')
      invariant forall d :: d in candidates.Keys - rest ==> AllHandled(ctx, t, targets, f'.sent, d)
      decreases |rest|
    {
      var d :| d in rest;
      ghost var sent := f'.sent;
      var open;
      open, f' := SendCandidate(accepts, f', d, candidates[d], ctx, t, targets);
      if !open {
        return;
      }
      forall e | e in candidates.Keys - rest ensures AllHandled(ctx, t, targets, f'.sent, e) {
        AllHandledGrows(ctx, t, targets, sent, f'.sent, e);
      }
      rest := rest - {d};
    }
    assert forall s :: Recorded(ctx, t, s) ==> AllHandled(ctx, t, targets, f'.sent, DigestOf(ctx, s));
  }

  lemma AllHandledGrows(ctx: Context, t: Votes, targets: seq<AuthorityId>, sent: seq<Signed>, sent': seq<Signed>, d: Digest)
    requires sent <= sent' && AllHandled(ctx, t, targets, sent, d)
    ensures AllHandled(ctx, t, targets, sent', d)
  {
    forall s | Recorded(ctx, t, s) && DigestOf(ctx, s) == d ensures Handled(t, targets, sent', s) {
      HandledGrows(t, targets, sent, sent', s);
    }
  }

  // ---------- A target that knows nothing ----------

  /** Traces tell the statements on record apart. */
  lemma TraceIdentifies(ctx: Context, said: set<Signed>, t: Votes, s: Signed, s': Signed)
    requires Inv(ctx, said, t) && Injective(ctx)
    requires Recorded(ctx, t, s) && Recorded(ctx, t, s') && TraceOf(s) == TraceOf(s')
    ensures s == s'
  {
    if s.statement.Propose? {
      assert BackedVote(ctx, said, t, DigestOf(ctx, s), s.sender);
      assert BackedVote(ctx, said, t, DigestOf(ctx, s'), s.sender);
    }
  }

  /** A batch in which everything on record was handled, for a target that knew none of it,
      holds exactly what is on record, every vote after a proposal of its candidate. */
  lemma FreshTargetGetsAll(ctx: Context, said: set<Signed>, t: Votes, targets: seq<AuthorityId>, sent: seq<Signed>)
    requires Inv(ctx, said, t) && Injective(ctx) && Batch(ctx, t, targets, sent)
    requires forall trace :: !AllKnow(t, targets, trace)
    requires forall s :: Recorded(ctx, t, s) ==> Handled(t, targets, sent, s)
    ensures FullBatch(ctx, t, sent)
  {
    forall s ensures s in sent <==> Recorded(ctx, t, s) {
      if s in sent {
        var j: nat :| j < |sent| && sent[j] == s;
        assert ProperlySent(ctx, t, targets, sent, j);
      }
      if Recorded(ctx, t, s) {
        SentAs(ctx, said, t, targets, sent, s, |sent|);
        assert sent[..|sent|] == sent;
      }
    }
    forall j | 0 <= j < |sent| && !sent[j].statement.Propose? ensures Introduced(ctx, sent[..j], DigestOf(ctx, sent[j])) {
      var d := DigestOf(ctx, sent[j]);
      assert ProperlySent(ctx, t, targets, sent, j);
      assert HasIssuer(t.candidates[d]) && SoundCandidate(ctx, d, t.candidates[d]);
      var a :| a in t.candidates[d].validity && t.candidates[d].validity[a].IssuedVote?;
      var p := Signed(Propose(t.candidates[d].candidate), t.candidates[d].validity[a].signature, a);
      assert Recorded(ctx, t, p);
      SentAs(ctx, said, t, targets, sent, p, j);
    }
  }

  lemma SentAs(ctx: Context, said: set<Signed>, t: Votes, targets: seq<AuthorityId>, sent: seq<Signed>, s: Signed, n: nat)
    requires Inv(ctx, said, t) && Injective(ctx) && Batch(ctx, t, targets, sent) && n <= |sent|
    requires !AllKnow(t, targets, TraceOf(s)) && Recorded(ctx, t, s) && Handled(t, targets, sent[..n], s)
    ensures s in sent[..n]
  {
    var x :| x in sent[..n] && TraceOf(x) == TraceOf(s);
    var j: nat :| j < n && sent[j] == x;
    assert ProperlySent(ctx, t, targets, sent, j);
    TraceIdentifies(ctx, said, t, x, s);
  }
}
