/** The records that are written to disk and sent over the network, field by field in the
    order they are encoded. */
module Records {
  import opened Primitives
  import opened Commits
  import opened Codec

  // ---------- Hashes and journal records ----------

  function ToHash(b: Bytes): H256 { H256(b) }
  function FromHash(h: H256): Bytes { h.bytes }

  function HashCodec(): Codec<H256> {
    MapCodec(FixedCodec(32), ToHash, FromHash)
  }

  lemma HashLawful()
    ensures Lawful(HashCodec())
  {
    FixedLawful(32);
    MapLawful(FixedCodec(32), ToHash, FromHash);
  }

  type BlockFields = (H256, (H256, (seq<(H256, Bytes)>, seq<H256>)))

  function ToBlockRecord(t: BlockFields): BlockRecord { BlockRecord(t.0, t.1.0, t.1.1.0, t.1.1.1) }
  function FromBlockRecord(r: BlockRecord): BlockFields { (r.hash, (r.parent, (r.inserted, r.deleted))) }

  function BlockFieldsCodec(): Codec<BlockFields> {
    PairCodec(HashCodec(), PairCodec(HashCodec(),
      PairCodec(VecCodec(PairCodec(HashCodec(), BytesCodec())), VecCodec(HashCodec()))))
  }

  function BlockRecordCodec(): Codec<BlockRecord> {
    MapCodec(BlockFieldsCodec(), ToBlockRecord, FromBlockRecord)
  }

  lemma BlockRecordLawful()
    ensures Lawful(BlockRecordCodec())
  {
    HashLawful();
    BytesLawful();
    var inserted := VecCodec(PairCodec(HashCodec(), BytesCodec()));
    PairLawful(HashCodec(), BytesCodec());
    VecLawful(PairCodec(HashCodec(), BytesCodec()));
    VecLawful(HashCodec());
    PairLawful(inserted, VecCodec(HashCodec()));
    PairLawful(HashCodec(), PairCodec(inserted, VecCodec(HashCodec())));
    PairLawful(HashCodec(), PairCodec(HashCodec(), PairCodec(inserted, VecCodec(HashCodec()))));
    MapLawful(BlockFieldsCodec(), ToBlockRecord, FromBlockRecord);
  }

  type DeathFields = (H256, (seq<H256>, seq<H256>))

  function ToDeathRecord(t: DeathFields): DeathRecord { DeathRecord(t.0, t.1.0, t.1.1) }
  function FromDeathRecord(r: DeathRecord): DeathFields { (r.hash, (r.inserted, r.deleted)) }

  function DeathFieldsCodec(): Codec<DeathFields> {
    PairCodec(HashCodec(), PairCodec(VecCodec(HashCodec()), VecCodec(HashCodec())))
  }

  function DeathRecordCodec(): Codec<DeathRecord> {
    MapCodec(DeathFieldsCodec(), ToDeathRecord, FromDeathRecord)
  }

  lemma DeathRecordLawful()
    ensures Lawful(DeathRecordCodec())
  {
    HashLawful();
    VecLawful(HashCodec());
    PairLawful(VecCodec(HashCodec()), VecCodec(HashCodec()));
    PairLawful(HashCodec(), PairCodec(VecCodec(HashCodec()), VecCodec(HashCodec())));
    MapLawful(DeathFieldsCodec(), ToDeathRecord, FromDeathRecord);
  }

  // ---------- Parachain types ----------

  /** The chain a validator works on; parachain ids are 32-bit. */
  datatype Chain = Relay | Parachain(id: nat)

  datatype DutyRoster = DutyRoster(validatorDuty: seq<Chain>, guarantorDuty: seq<Chain>)

  datatype CandidateReceipt = CandidateReceipt(
    parachainIndex: nat, collator: H256, headData: Bytes,
    balanceUploads: seq<(H256, nat)>, egressQueueRoots: seq<(nat, H256)>, fees: nat)

  datatype Statement =
    | Candidate(receipt: CandidateReceipt)
    | Valid(hash: H256)
    | Invalid(hash: H256)
    | Available(hash: H256)

  function ToChain(x: Choice<(), nat>): Chain { match x case First(_) => Relay case Second(id) => Parachain(id) }
  function FromChain(c: Chain): Choice<(), nat> { match c case Relay => First(()) case Parachain(id) => Second(id) }

  function ChainCodec(): Codec<Chain> {
    MapCodec(ChoiceCodec(Tagged(0, UNIT), Tagged(1, UintCodec(4))), ToChain, FromChain)
  }

  lemma ChainIsChoice()
    ensures forall x: Choice<(), nat> :: FromChain(ToChain(x)) == x
  {
    forall x: Choice<(), nat> ensures FromChain(ToChain(x)) == x {
      assert x.First? ==> x.a == ();
    }
  }

  lemma ChainLawful()
    ensures Lawful(ChainCodec())
  {
    UnitLawful();
    UintLawful(4);
    TaggedLawful(0, UNIT);
    TaggedLawful(1, UintCodec(4));
    ChoiceLawful(Tagged(0, UNIT), Tagged(1, UintCodec(4)), {0}, {1});
    ChainIsChoice();
    MapLawful(ChoiceCodec(Tagged(0, UNIT), Tagged(1, UintCodec(4))), ToChain, FromChain);
  }

  function ToRoster(t: (seq<Chain>, seq<Chain>)): DutyRoster { DutyRoster(t.0, t.1) }
  function FromRoster(r: DutyRoster): (seq<Chain>, seq<Chain>) { (r.validatorDuty, r.guarantorDuty) }

  function RosterCodec(): Codec<DutyRoster> {
    MapCodec(PairCodec(VecCodec(ChainCodec()), VecCodec(ChainCodec())), ToRoster, FromRoster)
  }

  lemma RosterLawful()
    ensures Lawful(RosterCodec())
  {
    ChainLawful();
    VecLawful(ChainCodec());
    PairLawful(VecCodec(ChainCodec()), VecCodec(ChainCodec()));
    MapLawful(PairCodec(VecCodec(ChainCodec()), VecCodec(ChainCodec())), ToRoster, FromRoster);
  }

  type ReceiptTail = (seq<(H256, nat)>, (seq<(nat, H256)>, nat))
  type ReceiptFields = (nat, (H256, (Bytes, ReceiptTail)))

  function ToReceipt(t: ReceiptFields): CandidateReceipt {
    CandidateReceipt(t.0, t.1.0, t.1.1.0, t.1.1.1.0, t.1.1.1.1.0, t.1.1.1.1.1)
  }

  function FromReceipt(r: CandidateReceipt): ReceiptFields {
    (r.parachainIndex, (r.collator, (r.headData, (r.balanceUploads, (r.egressQueueRoots, r.fees)))))
  }

  function ReceiptTailCodec(): Codec<ReceiptTail> {
    PairCodec(VecCodec(PairCodec(HashCodec(), UintCodec(8))),
      PairCodec(VecCodec(PairCodec(UintCodec(4), HashCodec())), UintCodec(8)))
  }

  lemma ReceiptTailLawful()
    ensures Lawful(ReceiptTailCodec())
  {
    HashLawful();
    UintLawful(4);
    UintLawful(8);
    var uploads, roots := PairCodec(HashCodec(), UintCodec(8)), PairCodec(UintCodec(4), HashCodec());
    PairLawful(HashCodec(), UintCodec(8));
    PairLawful(UintCodec(4), HashCodec());
    VecLawful(uploads);
    VecLawful(roots);
    PairLawful(VecCodec(roots), UintCodec(8));
    PairLawful(VecCodec(uploads), PairCodec(VecCodec(roots), UintCodec(8)));
  }

  function ReceiptFieldsCodec(): Codec<ReceiptFields> {
    PairCodec(UintCodec(4), PairCodec(HashCodec(), PairCodec(BytesCodec(), ReceiptTailCodec())))
  }

  function ReceiptCodec(): Codec<CandidateReceipt> {
    MapCodec(ReceiptFieldsCodec(), ToReceipt, FromReceipt)
  }

  lemma ReceiptLawful()
    ensures Lawful(ReceiptCodec())
  {
    HashLawful();
    UintLawful(4);
    BytesLawful();
    ReceiptTailLawful();
    PairLawful(BytesCodec(), ReceiptTailCodec());
    PairLawful(HashCodec(), PairCodec(BytesCodec(), ReceiptTailCodec()));
    PairLawful(UintCodec(4), PairCodec(HashCodec(), PairCodec(BytesCodec(), ReceiptTailCodec())));
    MapLawful(ReceiptFieldsCodec(), ToReceipt, FromReceipt);
  }

  type Votes = Choice<H256, Choice<H256, H256>>

  function ToStatement(x: Choice<CandidateReceipt, Votes>): Statement {
    match x
    case First(r) => Candidate(r)
    case Second(First(h)) => Valid(h)
    case Second(Second(First(h))) => Invalid(h)
    case Second(Second(Second(h))) => Available(h)
  }

  function FromStatement(s: Statement): Choice<CandidateReceipt, Votes> {
    match s
    case Candidate(r) => First(r)
    case Valid(h) => Second(First(h))
    case Invalid(h) => Second(Second(First(h)))
    case Available(h) => Second(Second(Second(h)))
  }

  function VotesCodec(): Codec<Votes> {
    ChoiceCodec(Tagged(2, HashCodec()), ChoiceCodec(Tagged(3, HashCodec()), Tagged(4, HashCodec())))
  }

  function StatementOver(receipts: Codec<CandidateReceipt>): Codec<Statement> {
    MapCodec(ChoiceCodec(Tagged(1, receipts), VotesCodec()), ToStatement, FromStatement)
  }

  function StatementCodec(): Codec<Statement> {
    StatementOver(ReceiptCodec())
  }

  lemma VotesLawful()
    ensures Lawful(VotesCodec()) && Heads(VotesCodec(), {2, 3, 4})
  {
    HashLawful();
    TaggedLawful(2, HashCodec());
    TaggedLawful(3, HashCodec());
    TaggedLawful(4, HashCodec());
    ChoiceLawful(Tagged(3, HashCodec()), Tagged(4, HashCodec()), {3}, {4});
    ChoiceLawful(Tagged(2, HashCodec()), ChoiceCodec(Tagged(3, HashCodec()), Tagged(4, HashCodec())), {2}, {3} + {4});
    assert {2} + ({3} + {4}) == {2, 3, 4};
  }

  lemma StatementIsChoice()
    ensures forall x :: FromStatement(ToStatement(x)) == x
    ensures forall s :: ToStatement(FromStatement(s)) == s
  {
  }

  lemma StatementOverLawful(receipts: Codec<CandidateReceipt>)
    requires Lawful(receipts)
    ensures Lawful(StatementOver(receipts))
  {
    TaggedLawful(1, receipts);
    VotesLawful();
    ChoiceLawful(Tagged(1, receipts), VotesCodec(), {1}, {2, 3, 4});
    StatementIsChoice();
    MapLawful(ChoiceCodec(Tagged(1, receipts), VotesCodec()), ToStatement, FromStatement);
  }

  lemma StatementLawful()
    ensures Lawful(StatementCodec())
  {
    ReceiptLawful();
    StatementOverLawful(ReceiptCodec());
  }

  // ---------- The bytes ----------

  ghost function HashesLayout(hashes: seq<H256>): Bytes {
    if hashes == [] then [] else hashes[0].bytes + HashesLayout(hashes[1..])
  }

  ghost function PairsLayout(pairs: seq<(H256, Bytes)>): Bytes {
    if pairs == [] then [] else pairs[0].0.bytes + (LittleEndian(4, |pairs[0].1|) + pairs[0].1) + PairsLayout(pairs[1..])
  }

  ghost function ChainsLayout(chains: seq<Chain>): Bytes {
    if chains == [] then [] else ChainLayout(chains[0]) + ChainsLayout(chains[1..])
  }

  ghost function ChainLayout(c: Chain): Bytes {
    if c.Relay? then [0] else [1] + LittleEndian(4, c.id)
  }

  lemma HashBytes(h: H256)
    ensures HashCodec().encode(h) == h.bytes
  {
    MapBytes(FixedCodec(32), ToHash, FromHash, h);
  }

  lemma {:induction false} HashesBytes(hashes: seq<H256>)
    ensures EncodeAll(HashCodec(), hashes) == HashesLayout(hashes)
  {
    if hashes != [] {
      HashesBytes(hashes[1..]);
      HashBytes(hashes[0]);
    }
  }

  lemma StringBytes(b: Bytes)
    ensures BytesCodec().encode(b) == LittleEndian(4, |b|) + b
  {
  }

  lemma {:induction false} PairsBytes(pairs: seq<(H256, Bytes)>)
    ensures EncodeAll(PairCodec(HashCodec(), BytesCodec()), pairs) == PairsLayout(pairs)
  {
    if pairs != [] {
      PairsBytes(pairs[1..]);
      PairBytes(HashCodec(), BytesCodec(), pairs[0]);
      HashBytes(pairs[0].0);
      StringBytes(pairs[0].1);
    }
  }

  /** Hash, parent, insertions, deletions. */
  ghost function BlockLayout(r: BlockRecord): Bytes {
    r.hash.bytes + (r.parent.bytes + ((LittleEndian(4, |r.inserted|) + PairsLayout(r.inserted)) + (LittleEndian(4, |r.deleted|) + HashesLayout(r.deleted))))
  }

  lemma BlockRecordBytes(r: BlockRecord)
    ensures BlockRecordCodec().encode(r) == BlockLayout(r)
  {
    var pairs := PairCodec(HashCodec(), BytesCodec());
    MapBytes(BlockFieldsCodec(), ToBlockRecord, FromBlockRecord, r);
    QuadBytes(HashCodec(), HashCodec(), VecCodec(pairs), VecCodec(HashCodec()), FromBlockRecord(r));
    HashBytes(r.hash);
    HashBytes(r.parent);
    VecIsCountAndAll(pairs, r.inserted);
    VecIsCountAndAll(HashCodec(), r.deleted);
    PairsBytes(r.inserted);
    HashesBytes(r.deleted);
  }

  /** Hash, insertions, deletions. */
  lemma DeathRecordBytes(r: DeathRecord)
    ensures DeathRecordCodec().encode(r)
         == r.hash.bytes + ((LittleEndian(4, |r.inserted|) + HashesLayout(r.inserted)) + (LittleEndian(4, |r.deleted|) + HashesLayout(r.deleted)))
  {
    MapBytes(DeathFieldsCodec(), ToDeathRecord, FromDeathRecord, r);
    TripleBytes(HashCodec(), VecCodec(HashCodec()), VecCodec(HashCodec()), FromDeathRecord(r));
    HashBytes(r.hash);
    VecIsCountAndAll(HashCodec(), r.inserted);
    VecIsCountAndAll(HashCodec(), r.deleted);
    HashesBytes(r.inserted);
    HashesBytes(r.deleted);
  }

  lemma UintBytes(n: nat, x: nat)
    ensures UintCodec(n).encode(x) == LittleEndian(n, x)
  {
  }

  lemma ChainBytes(c: Chain)
    ensures ChainCodec().encode(c) == ChainLayout(c)
  {
    var relay, parachain := Tagged(0, UNIT), Tagged(1, UintCodec(4));
    MapBytes(ChoiceCodec(relay, parachain), ToChain, FromChain, c);
    ChoiceBytes(relay, parachain, FromChain(c));
    TaggedBytes(0, UNIT, ());
    if c.Parachain? {
      TaggedBytes(1, UintCodec(4), c.id);
      UintBytes(4, c.id);
    }
  }

  lemma {:induction false} ChainsBytes(chains: seq<Chain>)
    ensures EncodeAll(ChainCodec(), chains) == ChainsLayout(chains)
  {
    if chains != [] {
      ChainsBytes(chains[1..]);
      ChainBytes(chains[0]);
    }
  }

  /** Validators, then guarantors. */
  lemma RosterBytes(r: DutyRoster)
    ensures RosterCodec().encode(r)
         == (LittleEndian(4, |r.validatorDuty|) + ChainsLayout(r.validatorDuty)) + (LittleEndian(4, |r.guarantorDuty|) + ChainsLayout(r.guarantorDuty))
  {
    MapBytes(PairCodec(VecCodec(ChainCodec()), VecCodec(ChainCodec())), ToRoster, FromRoster, r);
    PairBytes(VecCodec(ChainCodec()), VecCodec(ChainCodec()), FromRoster(r));
    VecIsCountAndAll(ChainCodec(), r.validatorDuty);
    VecIsCountAndAll(ChainCodec(), r.guarantorDuty);
    ChainsBytes(r.validatorDuty);
    ChainsBytes(r.guarantorDuty);
  }

  ghost function UploadsLayout(uploads: seq<(H256, nat)>): Bytes {
    if uploads == [] then [] else uploads[0].0.bytes + LittleEndian(8, uploads[0].1) + UploadsLayout(uploads[1..])
  }

  ghost function RootsLayout(roots: seq<(nat, H256)>): Bytes {
    if roots == [] then [] else LittleEndian(4, roots[0].0) + roots[0].1.bytes + RootsLayout(roots[1..])
  }

  lemma {:induction false} UploadsBytes(uploads: seq<(H256, nat)>)
    ensures EncodeAll(PairCodec(HashCodec(), UintCodec(8)), uploads) == UploadsLayout(uploads)
  {
    if uploads != [] {
      UploadsBytes(uploads[1..]);
      PairBytes(HashCodec(), UintCodec(8), uploads[0]);
      HashBytes(uploads[0].0);
      UintBytes(8, uploads[0].1);
    }
  }

  lemma {:induction false} RootsBytes(roots: seq<(nat, H256)>)
    ensures EncodeAll(PairCodec(UintCodec(4), HashCodec()), roots) == RootsLayout(roots)
  {
    if roots != [] {
      RootsBytes(roots[1..]);
      PairBytes(UintCodec(4), HashCodec(), roots[0]);
      HashBytes(roots[0].1);
      UintBytes(4, roots[0].0);
    }
  }

  ghost function TailLayout(r: CandidateReceipt): Bytes {
    (LittleEndian(4, |r.balanceUploads|) + UploadsLayout(r.balanceUploads)) +
    ((LittleEndian(4, |r.egressQueueRoots|) + RootsLayout(r.egressQueueRoots)) + LittleEndian(8, r.fees))
  }

  /** Parachain, collator, head data, balance uploads, egress roots, fees. */
  ghost function ReceiptLayout(r: CandidateReceipt): Bytes {
    LittleEndian(4, r.parachainIndex) + (r.collator.bytes + ((LittleEndian(4, |r.headData|) + r.headData) + TailLayout(r)))
  }

  lemma ReceiptTailBytes(r: CandidateReceipt)
    ensures ReceiptTailCodec().encode((r.balanceUploads, (r.egressQueueRoots, r.fees))) == TailLayout(r)
  {
    var uploads, roots := PairCodec(HashCodec(), UintCodec(8)), PairCodec(UintCodec(4), HashCodec());
    TripleBytes(VecCodec(uploads), VecCodec(roots), UintCodec(8), (r.balanceUploads, (r.egressQueueRoots, r.fees)));
    VecIsCountAndAll(uploads, r.balanceUploads);
    VecIsCountAndAll(roots, r.egressQueueRoots);
    UploadsBytes(r.balanceUploads);
    RootsBytes(r.egressQueueRoots);
    UintBytes(8, r.fees);
  }

  lemma ReceiptBytes(r: CandidateReceipt)
    ensures ReceiptCodec().encode(r) == ReceiptLayout(r)
  {
    MapBytes(ReceiptFieldsCodec(), ToReceipt, FromReceipt, r);
    QuadBytes(UintCodec(4), HashCodec(), BytesCodec(), ReceiptTailCodec(), FromReceipt(r));
    UintBytes(4, r.parachainIndex);
    HashBytes(r.collator);
    StringBytes(r.headData);
    ReceiptTailBytes(r);
  }

  /** The tags of statements. */
  lemma StatementBytes(s: Statement)
    ensures s.Candidate? ==> StatementCodec().encode(s) == [1] + ReceiptLayout(s.receipt)
    ensures s.Valid? ==> StatementCodec().encode(s) == [2] + s.hash.bytes
    ensures s.Invalid? ==> StatementCodec().encode(s) == [3] + s.hash.bytes
    ensures s.Available? ==> StatementCodec().encode(s) == [4] + s.hash.bytes
  {
    MapBytes(ChoiceCodec(Tagged(1, ReceiptCodec()), VotesCodec()), ToStatement, FromStatement, s);
    ChoiceBytes(Tagged(1, ReceiptCodec()), VotesCodec(), FromStatement(s));
    if s.Candidate? {
      TaggedBytes(1, ReceiptCodec(), s.receipt);
      ReceiptBytes(s.receipt);
    } else {
      VotesBytes(FromStatement(s).b);
    }
  }

  lemma VotesBytes(v: Votes)
    ensures v.First? ==> VotesCodec().encode(v) == [2] + v.a.bytes
    ensures v.Second? && v.b.First? ==> VotesCodec().encode(v) == [3] + v.b.a.bytes
    ensures v.Second? && v.b.Second? ==> VotesCodec().encode(v) == [4] + v.b.b.bytes
  {
    var valid, invalid, available := Tagged(2, HashCodec()), Tagged(3, HashCodec()), Tagged(4, HashCodec());
    ChoiceBytes(valid, ChoiceCodec(invalid, available), v);
    match v {
      case First(h) =>
        TaggedBytes(2, HashCodec(), h);
        HashBytes(h);
      case Second(w) =>
        ChoiceBytes(invalid, available, w);
        match w {
          case First(h) =>
            TaggedBytes(3, HashCodec(), h);
            HashBytes(h);
          case Second(h) =>
            TaggedBytes(4, HashCodec(), h);
            HashBytes(h);
        }
    }
  }
}
