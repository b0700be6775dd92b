/** The metadata as it lies in the key-value store: the four families of keys as bytes,
    and the values in their encoded form. */
module MetaStore {
  import opened Primitives
  import opened Commits
  import opened Codec
  import opened Records

  function Ascii(s: string): (b: Bytes)
    requires forall i :: 0 <= i < |s| ==> s[i] as int < 256
    ensures |b| == |s|
  {
    seq(|s|, i requires 0 <= i < |s| => s[i] as int as byte)
  }

  const LAST_FINALIZED: Bytes := Ascii("last_finalized")
  const LAST_PRUNED: Bytes := Ascii("last_pruned")
  const UNFINALIZED_JOURNAL: Bytes := Ascii("unfinalized_journal")
  const PRUNING_JOURNAL: Bytes := Ascii("pruning_journal")

  /** `to_meta_key`: the encoded data and then the suffix of the family. */
  function KeyBytes(k: MetaKey): Bytes {
    match k
    case LastFinalized => UNIT.encode(()) + LAST_FINALIZED
    case LastPruned => UNIT.encode(()) + LAST_PRUNED
    case BlockJournal(block, index) => PairCodec(UintCodec(8), UintCodec(8)).encode((block, index)) + UNFINALIZED_JOURNAL
    case DeathJournal(block) => UintCodec(8).encode(block) + PRUNING_JOURNAL
  }

  /** Block numbers and indices are 64-bit. */
  predicate Fits(k: MetaKey) {
    match k
    case BlockJournal(block, index) => block < Pow256(8) && index < Pow256(8)
    case DeathJournal(block) => block < Pow256(8)
    case _ => true
  }

  lemma KeyLength(k: MetaKey)
    ensures |KeyBytes(k)| == match k case LastFinalized => 14 case LastPruned => 11 case BlockJournal(_, _) => 35 case DeathJournal(_) => 23
  {
  }

  /** Keys of different families never collide, and neither do two keys of one family. */
  lemma KeysAreInjective(k: MetaKey, l: MetaKey)
    requires Fits(k) && Fits(l) && KeyBytes(k) == KeyBytes(l)
    ensures k == l
  {
    KeyLength(k);
    KeyLength(l);
    if k.BlockJournal? {
      BlockKeysAreInjective(k.block, k.index, l.block, l.index);
    } else if k.DeathJournal? {
      SamePrefix(UintCodec(8).encode(k.block), UintCodec(8).encode(l.block), PRUNING_JOURNAL);
      UintLawful(8);
      LawfulIsPrefixFree(UintCodec(8), k.block, l.block, []);
    }
  }

  lemma SamePrefix(x: Bytes, y: Bytes, suffix: Bytes)
    requires x + suffix == y + suffix && |x| == |y|
    ensures x + [] == y
  {
    assert x == (x + suffix)[..|x|];
    assert y == (y + suffix)[..|y|];
  }

  lemma BlockKeysAreInjective(b: nat, i: nat, b': nat, i': nat)
    requires Fits(BlockJournal(b, i)) && Fits(BlockJournal(b', i'))
    requires KeyBytes(BlockJournal(b, i)) == KeyBytes(BlockJournal(b', i'))
    ensures b == b' && i == i'
  {
    var c := PairCodec(UintCodec(8), UintCodec(8));
    SamePrefix(c.encode((b, i)), c.encode((b', i')), UNFINALIZED_JOURNAL);
    UintLawful(8);
    PairLawful(UintCodec(8), UintCodec(8));
    LawfulIsPrefixFree(c, (b, i), (b', i'), []);
  }

  /** The suffixes, in bytes. */
  lemma SuffixBytes()
    ensures LAST_FINALIZED == [0x6c, 0x61, 0x73, 0x74, 0x5f, 0x66, 0x69, 0x6e, 0x61, 0x6c, 0x69, 0x7a, 0x65, 0x64]
    ensures LAST_PRUNED == [0x6c, 0x61, 0x73, 0x74, 0x5f, 0x70, 0x72, 0x75, 0x6e, 0x65, 0x64]
    ensures UNFINALIZED_JOURNAL == [0x75, 0x6e, 0x66, 0x69, 0x6e, 0x61, 0x6c, 0x69, 0x7a, 0x65, 0x64, 0x5f, 0x6a, 0x6f, 0x75, 0x72, 0x6e, 0x61, 0x6c]
    ensures PRUNING_JOURNAL == [0x70, 0x72, 0x75, 0x6e, 0x69, 0x6e, 0x67, 0x5f, 0x6a, 0x6f, 0x75, 0x72, 0x6e, 0x61, 0x6c]
  {
  }

  /** Data first, then the suffix. */
  lemma KeyLayout(block: nat, index: nat)
    ensures KeyBytes(LastFinalized) == LAST_FINALIZED && KeyBytes(LastPruned) == LAST_PRUNED
    ensures KeyBytes(BlockJournal(block, index)) == LittleEndian(8, block) + LittleEndian(8, index) + UNFINALIZED_JOURNAL
    ensures KeyBytes(DeathJournal(block)) == LittleEndian(8, block) + PRUNING_JOURNAL
  {
    assert [] + LAST_FINALIZED == LAST_FINALIZED && [] + LAST_PRUNED == LAST_PRUNED;
  }

  // ---------- Values ----------

  function FinalizedCodec(): Codec<(H256, nat)> {
    PairCodec(HashCodec(), UintCodec(8))
  }

  function ValueBytes(v: MetaValue): Bytes {
    match v
    case FinalizedAt(hash, number) => FinalizedCodec().encode((hash, number))
    case PrunedAt(number) => UintCodec(8).encode(number)
    case Journaled(record) => BlockRecordCodec().encode(record)
    case Condemned(record) => DeathRecordCodec().encode(record)
  }

  lemma ValueLayout(v: MetaValue)
    ensures v.FinalizedAt? ==> ValueBytes(v) == v.hash.bytes + LittleEndian(8, v.number)
    ensures v.PrunedAt? ==> ValueBytes(v) == LittleEndian(8, v.number)
    ensures v.Journaled? ==> ValueBytes(v) == BlockLayout(v.block)
  {
    match v {
      case FinalizedAt(hash, number) =>
        PairBytes(HashCodec(), UintCodec(8), (hash, number));
        HashBytes(hash);
        UintBytes(8, number);
      case PrunedAt(number) => UintBytes(8, number);
      case Journaled(r) => BlockRecordBytes(r);
      case Condemned(_) =>
    }
  }

  /** A value of the kind its key is read with, small enough to be encoded. */
  predicate Storable(k: MetaKey, v: MetaValue) {
    match (k, v)
    case (LastFinalized, FinalizedAt(hash, number)) => FinalizedCodec().valid((hash, number))
    case (LastPruned, PrunedAt(number)) => UintCodec(8).valid(number)
    case (BlockJournal(_, _), Journaled(record)) => BlockRecordCodec().valid(record)
    case (DeathJournal(_), Condemned(record)) => DeathRecordCodec().valid(record)
    case _ => false
  }

  /** What a reader of key `k` makes of the stored bytes; trailing bytes are ignored. */
  function ReadValue(k: MetaKey, b: Bytes): Option<MetaValue> {
    match k
    case LastFinalized =>
      (match FinalizedCodec().decode(b) case None => None case Some(x) => Some(FinalizedAt(x.0.0, x.0.1)))
    case LastPruned =>
      (match UintCodec(8).decode(b) case None => None case Some(x) => Some(PrunedAt(x.0)))
    case BlockJournal(_, _) =>
      (match BlockRecordCodec().decode(b) case None => None case Some(x) => Some(Journaled(x.0)))
    case DeathJournal(_) =>
      (match DeathRecordCodec().decode(b) case None => None case Some(x) => Some(Condemned(x.0)))
  }

  lemma DecodesEncoded<T(!new)>(c: Codec<T>, x: T)
    requires Lawful(c) && c.valid(x)
    ensures c.decode(c.encode(x)) == Some((x, []))
  {
    assert c.encode(x) + [] == c.encode(x);
  }

  lemma ValueRoundTrip(k: MetaKey, v: MetaValue)
    requires Storable(k, v)
    ensures ReadValue(k, ValueBytes(v)) == Some(v)
  {
    match v {
      case FinalizedAt(hash, number) =>
        HashLawful();
        UintLawful(8);
        PairLawful(HashCodec(), UintCodec(8));
        DecodesEncoded(FinalizedCodec(), (hash, number));
      case PrunedAt(number) =>
        UintLawful(8);
        DecodesEncoded(UintCodec(8), number);
      case Journaled(record) =>
        BlockRecordLawful();
        DecodesEncoded(BlockRecordCodec(), record);
      case Condemned(record) =>
        DeathRecordLawful();
        DecodesEncoded(DeathRecordCodec(), record);
    }
  }

  // ---------- The store ----------

  type Store = map<Bytes, Bytes>

  ghost predicate Holds(store: Store, meta: Meta, k: MetaKey) {
    && (k in meta <==> KeyBytes(k) in store)
    && (k in meta ==> store[KeyBytes(k)] == ValueBytes(meta[k]))
  }

  /** The bytes in the store are those of the metadata. */
  ghost predicate Encodes(store: Store, meta: Meta) {
    forall k {:trigger Holds(store, meta, k)} :: Fits(k) ==> Holds(store, meta, k)
  }

  function EncodedPairs(pairs: seq<(MetaKey, MetaValue)>): seq<(Bytes, Bytes)> {
    if pairs == [] then [] else
      var last := |pairs| - 1;
      EncodedPairs(pairs[..last]) + [(KeyBytes(pairs[last].0), ValueBytes(pairs[last].1))]
  }

  function EncodedKeys(keys: seq<MetaKey>): seq<Bytes> {
    seq(|keys|, i requires 0 <= i < |keys| => KeyBytes(keys[i]))
  }

  function EncodedChanges(c: ChangeSet<MetaKey, MetaValue>): ChangeSet<Bytes, Bytes> {
    ChangeSet(EncodedPairs(c.inserted), EncodedKeys(c.deleted))
  }

  ghost predicate AllFit(c: ChangeSet<MetaKey, MetaValue>) {
    && (forall i :: 0 <= i < |c.inserted| ==> Fits(c.inserted[i].0))
    && (forall i :: 0 <= i < |c.deleted| ==> Fits(c.deleted[i]))
  }

  lemma {:induction false} CollectEncoded(pairs: seq<(MetaKey, MetaValue)>, k: MetaKey)
    requires Fits(k) && forall i :: 0 <= i < |pairs| ==> Fits(pairs[i].0)
    ensures Holds(Collect(EncodedPairs(pairs)), Collect(pairs), k)
  {
    if pairs != [] {
      var init, last := pairs[..|pairs| - 1], pairs[|pairs| - 1];
      CollectEncoded(init, k);
      CollectAppend(EncodedPairs(init), KeyBytes(last.0), ValueBytes(last.1));
      HoldsAfter(Collect(EncodedPairs(init)), Collect(init), last.0, last.1, k);
    }
  }

  lemma HoldsAfter(store: Store, meta: Meta, key: MetaKey, value: MetaValue, k: MetaKey)
    requires Fits(k) && Fits(key) && Holds(store, meta, k)
    ensures Holds(store[KeyBytes(key) := ValueBytes(value)], meta[key := value], k)
  {
    if KeyBytes(k) == KeyBytes(key) {
      KeysAreInjective(k, key);
    }
  }

  /** Committing the encoded changes to the store does what committing the changes does to
      the metadata. */
  lemma CommitIsFaithful(store: Store, meta: Meta, c: ChangeSet<MetaKey, MetaValue>)
    requires Encodes(store, meta) && AllFit(c)
    ensures Encodes(Applied(store, EncodedChanges(c)), Applied(meta, c))
  {
    forall k | Fits(k) ensures Holds(Applied(store, EncodedChanges(c)), Applied(meta, c), k) {
      assert Holds(store, meta, k);
      CollectEncoded(c.inserted, k);
      DeletedEncoded(c.deleted, k);
      AppliedAt(meta, c, k);
      AppliedAt(store, EncodedChanges(c), KeyBytes(k));
    }
  }

  lemma DeletedEncoded(keys: seq<MetaKey>, k: MetaKey)
    requires Fits(k) && forall i :: 0 <= i < |keys| ==> Fits(keys[i])
    ensures KeyBytes(k) in EncodedKeys(keys) <==> k in keys
  {
    forall i | 0 <= i < |keys| && EncodedKeys(keys)[i] == KeyBytes(k) ensures keys[i] == k {
      KeysAreInjective(keys[i], k);
    }
    if k in keys {
      var i :| 0 <= i < |keys| && keys[i] == k;
      assert EncodedKeys(keys)[i] == KeyBytes(k);
    }
  }

  /** Looking a key up in the store and decoding gives what the metadata holds. */
  lemma LookupIsFaithful(store: Store, meta: Meta, k: MetaKey)
    requires Encodes(store, meta) && Fits(k)
    requires k in meta ==> Storable(k, meta[k])
    ensures KeyBytes(k) in store <==> k in meta
    ensures k in meta ==> ReadValue(k, store[KeyBytes(k)]) == Some(meta[k])
  {
    assert Holds(store, meta, k);
    if k in meta {
      ValueRoundTrip(k, meta[k]);
    }
  }
}
