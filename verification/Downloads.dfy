/** The block ranges a node is downloading or has downloaded, and which peer downloads what. */
module Downloads {
  import opened Primitives
  import opened Ordered

  type PeerId = nat
  type Block(==, !new)

  datatype BlockData = BlockData(block: Block, origin: PeerId)

  datatype Range = Downloading(len: nat, downloading: nat) | Complete(blocks: seq<BlockData>) {
    function Len(): nat {
      if Downloading? then len else |blocks|
    }
  }

  type Ranges = map<nat, Range>

  const MAX_PARALLEL_DOWNLOADS: nat := 1

  // ---------- Ranges ----------

  /** Ranges are non-empty and disjoint. */
  ghost predicate Tidy(ranges: Ranges) {
    && (forall s :: s in ranges ==> ranges[s].Len() > 0)
    && (forall s, s' :: s in ranges && s' in ranges && s < s' ==> s + ranges[s].Len() <= s')
  }

  /** Each range is downloaded by one peer at a time. */
  ghost predicate Single(ranges: Ranges) {
    forall s :: s in ranges && ranges[s].Downloading? ==> ranges[s].downloading == 1
  }

  ghost predicate Covers(ranges: Ranges, s: nat, n: nat) {
    s in ranges && s <= n < s + ranges[s].Len()
  }

  ghost predicate Covered(ranges: Ranges, n: nat) {
    exists s :: Covers(ranges, s, n)
  }

  /** Each peer with a request has a range being downloaded, and each such range one peer. */
  ghost predicate Matched(ranges: Ranges, requests: map<PeerId, nat>) {
    && (forall p :: p in requests ==> requests[p] in ranges && ranges[requests[p]].Downloading?)
    && (forall p, p' :: p in requests && p' in requests && requests[p] == requests[p'] ==> p == p')
    && (forall s :: s in ranges && ranges[s].Downloading? ==> exists p :: p in requests && requests[p] == s)
  }

  // ---------- What to download next ----------

  /** A block at or past `first`, or past a range that is already known. */
  ghost predicate Wanted(ranges: Ranges, first: nat, n: nat) {
    first <= n || exists s :: s in ranges && s <= n
  }

  /** The first wanted stretch that is not covered, and how far it reaches: nowhere, if no blocks
      are asked for. */
  ghost predicate FirstGap(ranges: Ranges, first: nat, count: nat, start: nat, end: nat) {
    && start <= end <= start + count && (count > 0 ==> start < end)
    && Wanted(ranges, first, start) && !Covered(ranges, start)
    && (forall n :: start <= n < end ==> !Covered(ranges, n))
    && (forall n: nat :: n < start && Wanted(ranges, first, n) ==> Covered(ranges, n))
    && (end == start + count || end in ranges)
  }

  /** The first `i` keys are ranges without a gap between them that begin no later than `first`. */
  ghost predicate Contiguous(ranges: Ranges, keys: seq<nat>, i: nat, first: nat)
    requires Listed(ranges.Keys, keys) && i <= |keys|
  {
    && (i > 0 ==> keys[0] <= first)
    && (forall j :: 0 < j < i ==> keys[j] == keys[j - 1] + ranges[keys[j - 1]].Len())
  }

  lemma ContiguousNext(ranges: Ranges, keys: seq<nat>, i: nat, first: nat)
    requires Listed(ranges.Keys, keys) && Tidy(ranges) && i < |keys| && Contiguous(ranges, keys, i, first)
    requires if i == 0 then keys[0] <= first else keys[i - 1] in ranges && keys[i] in ranges && keys[i] <= keys[i - 1] + ranges[keys[i - 1]].Len()
    ensures Contiguous(ranges, keys, i + 1, first)
  {
    if i > 0 {
      assert keys[i - 1] < keys[i];
    }
  }

  lemma KeyIsRange(ranges: Ranges, keys: seq<nat>, j: nat)
    requires Listed(ranges.Keys, keys) && j < |keys|
    ensures keys[j] in ranges
  {
    assert keys[j] in Elems(keys);
  }

  lemma {:induction false} ContiguousCovers(ranges: Ranges, keys: seq<nat>, i: nat, first: nat, n: nat)
    requires Listed(ranges.Keys, keys) && 0 < i <= |keys| && Contiguous(ranges, keys, i, first)
    requires keys[i - 1] in ranges && keys[0] <= n < keys[i - 1] + ranges[keys[i - 1]].Len()
    ensures Covered(ranges, n)
  {
    if keys[i - 1] <= n {
      assert Covers(ranges, keys[i - 1], n);
    } else {
      KeyIsRange(ranges, keys, i - 2);
      ContiguousCovers(ranges, keys, i - 1, first, n);
    }
  }

  /** Between the end of the i-th range and the next key nothing is covered. */
  lemma GapIsFree(ranges: Ranges, keys: seq<nat>, i: nat, n: nat)
    requires Listed(ranges.Keys, keys) && Tidy(ranges) && i <= |keys|
    requires i > 0 ==> keys[i - 1] in ranges && keys[i - 1] + ranges[keys[i - 1]].Len() <= n
    requires i < |keys| ==> n < keys[i]
    ensures !Covered(ranges, n)
  {
    forall s | s in ranges ensures !Covers(ranges, s, n) {
      assert s in Elems(keys);
      var j :| 0 <= j < |keys| && keys[j] == s;
      if j + 1 < i {
        assert keys[j] < keys[i - 1];
      }
    }
  }

  /** The walk has stopped before the i-th range, at a gap that begins at `start`. */
  ghost predicate StopsAt(ranges: Ranges, keys: seq<nat>, i: nat, first: nat, count: nat, start: nat, end: nat)
    requires Listed(ranges.Keys, keys) && i <= |keys|
  {
    && Contiguous(ranges, keys, i, first)
    && (if i > 0 then keys[i - 1] in ranges && start == keys[i - 1] + ranges[keys[i - 1]].Len() else start == first && (|keys| > 0 ==> first < keys[0]))
    && start <= end <= start + count && (count > 0 ==> start < end) && (i < |keys| ==> start < keys[i] && end <= keys[i])
    && (end == start + count || (i < |keys| && end == keys[i]))
  }

  /** The search for the next range: it walks the ranges in order, with the one before at hand. */
  method FindRange(ranges: Ranges, first: nat, count: nat) returns (start: nat, end: nat, downloading: nat)
    requires Tidy(ranges)
    ensures (downloading == 0 && FirstGap(ranges, first, count, start, end)) ||
            (start in ranges && ranges[start].Downloading? && ranges[start].len == end - start && ranges[start].downloading == downloading < MAX_PARALLEL_DOWNLOADS)
  {
    var keys := Ascending(ranges.Keys);
    var i := 0;
    start, end, downloading := first, first + count, 0;
    while true
      invariant i <= |keys| && Contiguous(ranges, keys, i, first) && downloading == 0
      decreases |keys| - i
    {
      var prev: Option<(nat, Range)>, next: Option<nat> := None, None;
      if i > 0 {
        KeyIsRange(ranges, keys, i - 1);
        prev := Some((keys[i - 1], ranges[keys[i - 1]]));
      }
      if i < |keys| {
        KeyIsRange(ranges, keys, i);
        next := Some(keys[i]);
      }
      if prev.Some? && prev.value.1.Downloading? && prev.value.1.downloading < MAX_PARALLEL_DOWNLOADS {
        var (s, r) := prev.value;
        return s, s + r.len, r.downloading;
      }
      start := if prev.Some? then prev.value.0 + prev.value.1.Len() else first;
      if next.None? || start < next.value {
        end := if next.Some? && next.value < start + count then next.value else start + count;
        assert StopsAt(ranges, keys, i, first, count, start, end);
        break;
      }
      ContiguousNext(ranges, keys, i, first);
      i := i + 1;
    }
    GapFound(ranges, keys, i, first, count, start, end);
  }

  lemma GapFound(ranges: Ranges, keys: seq<nat>, i: nat, first: nat, count: nat, start: nat, end: nat)
    requires Listed(ranges.Keys, keys) && Tidy(ranges) && i <= |keys| && StopsAt(ranges, keys, i, first, count, start, end)
    ensures FirstGap(ranges, first, count, start, end)
  {
    GapIsFree(ranges, keys, i, start);
    forall n | start <= n < end ensures !Covered(ranges, n) {
      GapIsFree(ranges, keys, i, n);
    }
    forall s | s in ranges ensures keys[0] <= s {
      assert s in Elems(keys);
    }
    forall n: nat | n < start && Wanted(ranges, first, n) ensures Covered(ranges, n) {
      ContiguousCovers(ranges, keys, i, first, n);
    }
    if i > 0 {
      assert keys[i - 1] <= start;
    }
    if i < |keys| {
      KeyIsRange(ranges, keys, i);
    }
  }

  /** Every wanted block up to the peer's best is covered. */
  ghost predicate NothingNeeded(ranges: Ranges, first: nat, peerBest: nat) {
    forall n: nat :: n <= peerBest && Wanted(ranges, first, n) ==> Covered(ranges, n)
  }

  /** What is chosen for a peer: the first gap, cropped to the peer's best block; nothing if
      every wanted block up to there is covered. */
  ghost predicate Choice(ranges: Ranges, first: nat, count: nat, peerBest: nat, r: Option<(nat, nat)>) {
    && (r.None? <==> NothingNeeded(ranges, first, peerBest))
    && (r.Some? ==> Stretch(ranges, first, count, peerBest, r.value.0, r.value.1))
  }

  ghost predicate Stretch(ranges: Ranges, first: nat, count: nat, peerBest: nat, start: nat, end: nat) {
    && start <= end <= peerBest + 1 && end <= start + count && (count > 0 ==> start < end)
    && Wanted(ranges, first, start) && !Covered(ranges, start)
    && (forall n :: start <= n < end ==> !Covered(ranges, n))
    && (forall n: nat :: n < start && Wanted(ranges, first, n) ==> Covered(ranges, n))
    && (end == start + count || end == peerBest + 1 || end in ranges)
  }

  method ChooseRange(ranges: Ranges, first: nat, count: nat, peerBest: nat) returns (r: Option<(nat, nat)>, downloading: nat)
    requires Tidy(ranges) && Single(ranges)
    ensures Choice(ranges, first, count, peerBest, r) && downloading == 0
  {
    var start, end;
    start, end, downloading := FindRange(ranges, first, count);
    if start > peerBest {
      r := None;
    } else {
      r := Some((start, if peerBest + 1 < end then peerBest + 1 else end));
    }
  }

  lemma FillsGap(ranges: Ranges, start: nat, r: Range)
    requires Tidy(ranges) && r.Len() > 0 && forall n :: start <= n < start + r.Len() ==> !Covered(ranges, n)
    ensures start !in ranges && Tidy(ranges[start := r])
  {
    assert forall s :: s in ranges ==> Covers(ranges, s, s);
    assert !Covered(ranges, start);
    forall s | s in ranges ensures s != start
                           ensures s < start ==> s + ranges[s].Len() <= start
                           ensures start < s ==> start + r.Len() <= s {
      assert Covers(ranges, s, s);
      if s < start {
        assert !Covers(ranges, s, start);
      }
      assert Covered(ranges, s);
    }
  }

  // ---------- Draining ----------

  /** Block number `n` is held, and is `b`. */
  ghost predicate Holds(ranges: Ranges, n: nat, b: BlockData) {
    exists s :: Covers(ranges, s, n) && ranges[s].Complete? && ranges[s].blocks[n - s] == b
  }

  /** What a drain from `from` yields: the held blocks from the first range on, in order and
      without a gap, if that range begins no later than `from`. */
  ghost predicate Drained(ranges: Ranges, from: nat, drained: seq<BlockData>, rest: Ranges, bottom: nat) {
    && (forall i :: 0 <= i < |drained| ==> Holds(ranges, bottom + i, drained[i]))
    && (forall s :: s in ranges ==> bottom <= s)
    && (drained != [] ==> bottom <= from)
    && (forall s :: s in rest <==> s in ranges && !(s < bottom + |drained|))
    && (forall s :: s in rest ==> rest[s] == ranges[s])
    && (bottom + |drained| in ranges && (drained != [] || bottom <= from) ==> ranges[bottom + |drained|].Downloading?)
  }

  /** The walk of a drain has taken the first `i` ranges. */
  ghost predicate Taken(ranges: Ranges, keys: seq<nat>, from: nat, i: nat, drained: seq<BlockData>)
    requires Listed(ranges.Keys, keys) && i <= |keys|
  {
    && (i == 0 ==> drained == [])
    && (forall j :: 0 <= j < i ==> keys[j] in ranges && ranges[keys[j]].Complete?)
    && (i > 0 ==> keys[0] <= from && keys[i - 1] in ranges && keys[i - 1] + ranges[keys[i - 1]].Len() == keys[0] + |drained|)
    && (i > 0 ==> forall t :: 0 <= t < |drained| ==> Holds(ranges, keys[0] + t, drained[t]))
  }

  lemma TakeNext(ranges: Ranges, keys: seq<nat>, from: nat, i: nat, drained: seq<BlockData>)
    requires Listed(ranges.Keys, keys) && Tidy(ranges) && i < |keys| && Taken(ranges, keys, from, i, drained)
    requires keys[i] in ranges && ranges[keys[i]].Complete? && keys[i] <= (if i == 0 then from else keys[0] + |drained|)
    ensures Taken(ranges, keys, from, i + 1, drained + ranges[keys[i]].blocks)
  {
    var blocks, s := ranges[keys[i]].blocks, keys[i];
    assert s == keys[0] + |drained| by {
      if i > 0 {
        assert keys[i - 1] < s;
      }
    }
    forall t | 0 <= t < |drained + blocks| ensures Holds(ranges, keys[0] + t, (drained + blocks)[t]) {
      if t >= |drained| {
        assert Covers(ranges, s, keys[0] + t);
      }
    }
  }

  lemma DrainEnds(ranges: Ranges, keys: seq<nat>, from: nat, i: nat, drained: seq<BlockData>, rest: Ranges)
    requires Listed(ranges.Keys, keys) && Tidy(ranges) && i <= |keys| && |keys| > 0 && Taken(ranges, keys, from, i, drained)
    requires i < |keys| ==> keys[i] in ranges && !(ranges[keys[i]].Complete? && keys[i] <= (if i == 0 then from else keys[0] + |drained|))
    requires rest == ranges - Elems(keys[..i])
    ensures Drained(ranges, from, drained, rest, keys[0])
  {
    forall s | s in ranges ensures keys[0] <= s && (s in Elems(keys[..i]) <==> s < keys[0] + |drained|) {
      TakenIsBelow(ranges, keys, i, keys[0] + |drained|, s);
    }
  }

  /** The ranges taken are those below where the taken blocks end. */
  lemma TakenIsBelow(ranges: Ranges, keys: seq<nat>, i: nat, end: nat, s: nat)
    requires Listed(ranges.Keys, keys) && Tidy(ranges) && i <= |keys| && s in ranges && |keys| > 0
    requires if i == 0 then end == keys[0] else keys[i - 1] in ranges && end == keys[i - 1] + ranges[keys[i - 1]].Len()
    ensures keys[0] <= s && (s in Elems(keys[..i]) <==> s < end)
  {
    assert s in Elems(keys);
    var j :| 0 <= j < |keys| && keys[j] == s;
    if j < i {
      assert keys[..i][j] == s;
      assert keys[j] <= keys[i - 1];
    } else if i > 0 {
      assert keys[i - 1] < keys[j];
    }
  }

  /** The walk of a drain, with where the next range must begin; over ranges that are tidy it takes
      consecutive blocks. */
  ghost predicate Walks(ranges: Ranges, keys: seq<nat>, from: nat, i: nat, drained: seq<BlockData>, prev: nat)
    requires Listed(ranges.Keys, keys) && i <= |keys|
  {
    && (forall j :: 0 <= j < i ==> keys[j] in ranges && ranges[keys[j]].Complete?)
    && (Tidy(ranges) ==> Taken(ranges, keys, from, i, drained) && prev == if i == 0 then from else keys[0] + |drained|)
  }

  lemma WalkOn(ranges: Ranges, keys: seq<nat>, from: nat, i: nat, drained: seq<BlockData>, prev: nat)
    requires Listed(ranges.Keys, keys) && i < |keys| && Walks(ranges, keys, from, i, drained, prev)
    requires keys[i] in ranges && ranges[keys[i]].Complete? && keys[i] <= prev
    ensures Walks(ranges, keys, from, i + 1, drained + ranges[keys[i]].blocks, keys[i] + |ranges[keys[i]].blocks|)
  {
    if Tidy(ranges) {
      TakeNext(ranges, keys, from, i, drained);
    }
  }

  lemma WalkEnds(ranges: Ranges, keys: seq<nat>, from: nat, i: nat, drained: seq<BlockData>, prev: nat)
    requires Listed(ranges.Keys, keys) && i <= |keys| && |keys| > 0 && Walks(ranges, keys, from, i, drained, prev)
    requires i < |keys| ==> keys[i] in ranges && !(ranges[keys[i]].Complete? && keys[i] <= prev)
    ensures Tidy(ranges) ==> Drained(ranges, from, drained, ranges - Elems(keys[..i]), keys[0])
    ensures forall s :: s in Elems(keys[..i]) ==> s in ranges && ranges[s].Complete?
  {
    if Tidy(ranges) {
      DrainEnds(ranges, keys, from, i, drained, ranges - Elems(keys[..i]));
    }
  }

  /** The walk of a drain: the blocks to hand out, and the ranges they came from. */
  method Ready(ranges: Ranges, from: nat) returns (drained: seq<BlockData>, taken: seq<nat>, ghost bottom: nat)
    ensures Tidy(ranges) ==> Drained(ranges, from, drained, ranges - Elems(taken), bottom)
    ensures forall s :: s in Elems(taken) ==> s in ranges && ranges[s].Complete?
  {
    var keys := Ascending(ranges.Keys);
    drained, taken, bottom := [], [], 0;
    var i: nat, prev: nat := 0, from;
    while i < |keys|
      invariant i <= |keys| && taken == keys[..i] && Walks(ranges, keys, from, i, drained, prev)
    {
      KeyIsRange(ranges, keys, i);
      var range := ranges[keys[i]];
      if !(range.Complete? && keys[i] <= prev) {
        break;
      }
      WalkOn(ranges, keys, from, i, drained, prev);
      prev := keys[i] + |range.blocks|;
      drained := drained + range.blocks;
      taken := taken + [keys[i]];
      i := i + 1;
    }
    if |keys| > 0 {
      bottom := keys[0];
      WalkEnds(ranges, keys, from, i, drained, prev);
    }
  }

  // ---------- The collection ----------

  /** What storing received blocks does: nothing if none came, if the range is still being
      downloaded, or if at least as many are held. */
  function Inserted(ranges: Ranges, start: nat, blocks: seq<Block>, peer: PeerId): Ranges {
    if blocks == [] || (start in ranges && (ranges[start].Downloading? || |ranges[start].blocks| >= |blocks|)) then ranges
    else ranges[start := Complete(From(blocks, peer))]
  }

  function From(blocks: seq<Block>, peer: PeerId): (r: seq<BlockData>)
    ensures |r| == |blocks|
  {
    seq(|blocks|, i requires 0 <= i < |blocks| => BlockData(blocks[i], peer))
  }

  /** The range that begins at `start` holds these blocks from this peer, in order, and no others. */
  ghost predicate HeldExactly(ranges: Ranges, start: nat, blocks: seq<Block>, peer: PeerId) {
    && start in ranges && ranges[start].Complete? && ranges[start].Len() == |blocks|
    && forall i :: 0 <= i < |blocks| ==> Holds(ranges, start + i, BlockData(blocks[i], peer))
  }

  lemma ReceivedAreHeld(ranges: Ranges, start: nat, blocks: seq<Block>, peer: PeerId)
    ensures HeldExactly(ranges[start := Complete(From(blocks, peer))], start, blocks, peer)
  {
    var ranges' := ranges[start := Complete(From(blocks, peer))];
    forall i | 0 <= i < |blocks| ensures Holds(ranges', start + i, BlockData(blocks[i], peer)) {
      assert Covers(ranges', start, start + i);
    }
  }

  lemma OneRangePerNumber(ranges: Ranges, s: nat, s': nat, n: nat)
    requires Tidy(ranges) && Covers(ranges, s, n) && Covers(ranges, s', n)
    ensures s == s'
  {
  }

  lemma OneBlockPerNumber(ranges: Ranges, n: nat, b: BlockData, b': BlockData)
    requires Tidy(ranges) && Holds(ranges, n, b) && Holds(ranges, n, b')
    ensures b == b'
  {
    var s: nat :| Covers(ranges, s, n) && ranges[s].Complete? && ranges[s].blocks[n - s] == b;
    var s': nat :| Covers(ranges, s', n) && ranges[s'].Complete? && ranges[s'].blocks[n - s'] == b';
    OneRangePerNumber(ranges, s, s', n);
  }

  /** What is drained at the numbers of received blocks are those blocks. */
  ghost predicate HandsOut(drained: seq<BlockData>, bottom: nat, start: nat, blocks: seq<Block>, peer: PeerId) {
    forall i :: 0 <= i < |blocks| && bottom <= start + i < bottom + |drained| ==> drained[start + i - bottom] == BlockData(blocks[i], peer)
  }

  lemma DrainHandsOut(held: Ranges, from: nat, drained: seq<BlockData>, rest: Ranges, bottom: nat, start: nat, blocks: seq<Block>, peer: PeerId)
    requires Tidy(held) && Drained(held, from, drained, rest, bottom) && HeldExactly(held, start, blocks, peer)
    ensures HandsOut(drained, bottom, start, blocks, peer)
  {
    forall i | 0 <= i < |blocks| && bottom <= start + i < bottom + |drained| ensures drained[start + i - bottom] == BlockData(blocks[i], peer) {
      var k := start + i - bottom;
      assert Holds(held, bottom + k, drained[k]) && Holds(held, start + i, BlockData(blocks[i], peer));
      OneBlockPerNumber(held, start + i, drained[k], BlockData(blocks[i], peer));
    }
  }

  /** A peer's request given up: its range is free again, unless others download it too, or it is
      not being downloaded. */
  ghost function Released(ranges: Ranges, requests: map<PeerId, nat>, peer: PeerId): Ranges {
    if peer !in requests || requests[peer] !in ranges || ranges[requests[peer]].Complete? then ranges
    else
      var range := ranges[requests[peer]];
      if range.downloading > 1 then ranges[requests[peer] := Downloading(range.len, range.downloading - 1)]
      else ranges - {requests[peer]}
  }

  /** Giving up touches nothing but the peer's own range, and that only if it is being downloaded;
      the range is then free, or wanted by one peer less. */
  lemma ReleaseTouchesOne(ranges: Ranges, requests: map<PeerId, nat>, peer: PeerId, s: nat)
    ensures var touched := peer in requests && s == requests[peer] && s in ranges && ranges[s].Downloading?;
            var after := Released(ranges, requests, peer);
            && (!touched ==> (s in after <==> s in ranges) && (s in ranges ==> after[s] == ranges[s]))
            && (touched ==> (s in after <==> ranges[s].downloading > 1))
            && (touched && s in after ==> after[s].Downloading? && after[s].len == ranges[s].len && after[s].downloading + 1 == ranges[s].downloading)
  {
  }

  lemma ReleaseKeepsMatch(ranges: Ranges, requests: map<PeerId, nat>, peer: PeerId)
    requires Tidy(ranges) && Single(ranges) && Matched(ranges, requests)
    ensures var ranges' := Released(ranges, requests, peer);
            Tidy(ranges') && Single(ranges') && Matched(ranges', requests - {peer})
  {
    var ranges', requests' := Released(ranges, requests, peer), requests - {peer};
    forall s | s in ranges' && ranges'[s].Downloading? ensures exists p :: p in requests' && requests'[p] == s {
      var p :| p in requests && requests[p] == s;
      assert p in requests' && requests'[p] == s;
    }
  }

  lemma DrainKeepsMatch(ranges: Ranges, requests: map<PeerId, nat>, gone: set<nat>)
    requires Tidy(ranges) && Single(ranges) && Matched(ranges, requests)
    requires forall s :: s in gone ==> s in ranges && ranges[s].Complete?
    ensures Tidy(ranges - gone) && Single(ranges - gone) && Matched(ranges - gone, requests)
  {
  }

  /** An answer that does not reach into the next range. */
  ghost predicate Fits(ranges: Ranges, start: nat, count: nat) {
    forall s :: s in ranges && start < s ==> start + count <= s
  }

  lemma ReceiptKeepsMatchIff(ranges: Ranges, requests: map<PeerId, nat>, start: nat, blocks: seq<BlockData>)
    requires start in ranges && Tidy(ranges) && blocks != []
    requires Single(ranges - {start}) && Matched(ranges - {start}, requests)
    ensures var ranges' := ranges[start := Complete(blocks)];
            Single(ranges') && Matched(ranges', requests) && (Tidy(ranges') <==> Fits(ranges, start, |blocks|))
  {
    var ranges' := ranges[start := Complete(blocks)];
    forall s | s in ranges' && ranges'[s].Downloading? ensures exists p :: p in requests && requests[p] == s {
      assert s in ranges - {start};
    }
    if Tidy(ranges') {
      forall s | s in ranges && start < s ensures start + |blocks| <= s {
        assert s in ranges' && start in ranges';
      }
    }
  }

  lemma RequestKeepsMatchIff(ranges: Ranges, requests: map<PeerId, nat>, peer: PeerId, start: nat, len: nat)
    requires Matched(ranges, requests) && start !in ranges
    ensures Matched(ranges[start := Downloading(len, 1)], requests[peer := start]) <==> peer !in requests
  {
    var ranges', requests' := ranges[start := Downloading(len, 1)], requests[peer := start];
    if peer in requests {
      var s := requests[peer];
      assert s in ranges' && ranges'[s].Downloading?;
      forall p | p in requests' ensures requests'[p] != s {
      }
    } else {
      forall s | s in ranges' && ranges'[s].Downloading? ensures exists p :: p in requests' && requests'[p] == s {
        if s == start {
          assert requests'[peer] == s;
        } else {
          var p :| p in requests && requests[p] == s;
          assert requests'[p] == s;
        }
      }
    }
  }

  ghost predicate AllValid(ranges: Ranges, requests: map<PeerId, nat>) {
    Tidy(ranges) && Single(ranges) && Matched(ranges, requests)
  }

  lemma MarkKeepsValidIff(ranges: Ranges, requests: map<PeerId, nat>, peer: PeerId, first: nat, count: nat, peerBest: nat, start: nat, end: nat)
    requires AllValid(ranges, requests) && Stretch(ranges, first, count, peerBest, start, end) && start < end
    ensures AllValid(ranges[start := Downloading(end - start, 1)], requests[peer := start]) <==> peer !in requests
  {
    FillsGap(ranges, start, Downloading(end - start, 1));
    RequestKeepsMatchIff(ranges, requests, peer, start, end - start);
  }

  class BlockCollection {
    var ranges: Ranges
    var requests: map<PeerId, nat>

    ghost predicate Valid()
      reads this
    {
      AllValid(ranges, requests)
    }

    constructor ()
      ensures Valid() && ranges == map[] && requests == map[]
    {
      ranges, requests := map[], map[];
    }

    method Clear()
      modifies this
      ensures Valid() && ranges == map[] && requests == map[]
    {
      ranges, requests := map[], map[];
    }

    /** Received blocks are held in order from `start` on, with who sent them; they are ignored if
        the range is still being downloaded or if at least as many are held. */
    method Insert(start: nat, blocks: seq<Block>, peer: PeerId)
      modifies this`ranges
      ensures ranges == Inserted(old(ranges), start, blocks, peer)
      ensures forall s :: s != start ==> (s in ranges <==> s in old(ranges)) && (s in ranges ==> ranges[s] == old(ranges)[s])
      ensures var ignored := blocks == [] || (start in old(ranges) && (old(ranges)[start].Downloading? || |blocks| <= |old(ranges)[start].blocks|));
              && (ignored ==> ranges == old(ranges))
              && (!ignored ==> HeldExactly(ranges, start, blocks, peer))
    {
      ReceivedAreHeld(ranges, start, blocks, peer);
      if blocks == [] {
        return;
      }
      if start in ranges {
        match ranges[start] {
          case Downloading(_, _) => return;
          case Complete(existing) =>
            if |existing| >= |blocks| {
              return;
            }
        }
      }
      ranges := ranges[start := Complete(From(blocks, peer))];
    }

    /** Choose a range for a peer to download, and mark it. Asking for no blocks when some are
        needed panics; a peer that has a request loses it, and its range is then nobody's. */
    method NeededBlocks(peer: PeerId, count: nat, peerBest: nat, common: nat) returns (r: Option<(nat, nat)>, panics: bool)
      requires Valid()
      modifies this
      ensures panics <==> count == 0 && !NothingNeeded(old(ranges), common + 1, peerBest)
      ensures Choice(old(ranges), common + 1, count, peerBest, r)
      ensures r.None? ==> ranges == old(ranges) && requests == old(requests)
      ensures r.Some? ==> ranges == old(ranges)[r.value.0 := Downloading(r.value.1 - r.value.0, 1)] && requests == old(requests)[peer := r.value.0]
      ensures !panics ==> (Valid() <==> r.None? || peer !in old(requests))
    {
      var downloading;
      r, downloading := ChooseRange(ranges, common + 1, count, peerBest);
      panics := false;
      if r.Some? {
        var (start, end) := r.value;
        if start < end {
          MarkKeepsValidIff(ranges, requests, peer, common + 1, count, peerBest, start, end);
        }
        var range := Downloading(end - start, downloading + 1);
        assert range == Downloading(end - start, 1);
        requests := requests[peer := start];
        ranges := ranges[start := range];
        panics := end <= start;
      }
    }

    /** Take the blocks that are ready, in order. */
    method Drain(from: nat) returns (drained: seq<BlockData>, ghost bottom: nat)
      modifies this`ranges
      ensures old(Valid()) ==> Valid()
      ensures old(Tidy(ranges)) ==> Drained(old(ranges), from, drained, ranges, bottom)
    {
      var taken;
      drained, taken, bottom := Ready(ranges, from);
      if Valid() {
        DrainKeepsMatch(ranges, requests, Elems(taken));
      }
      ranges := ranges - Elems(taken);
    }

    /** Give up what a peer is downloading. */
    method ClearPeerDownload(peer: PeerId)
      modifies this
      ensures ranges == Released(old(ranges), old(requests), peer) && requests == old(requests) - {peer}
      ensures old(Valid()) ==> Valid()
    {
      if Valid() {
        ReleaseKeepsMatch(ranges, requests, peer);
      }
      if peer in requests {
        var start := requests[peer];
        requests := requests - {peer};
        if start in ranges && ranges[start].Downloading? {
          var range := ranges[start];
          if range.downloading > 1 {
            ranges := ranges[start := Downloading(range.len, range.downloading - 1)];
          } else {
            ranges := ranges - {start};
          }
        }
      }
    }

    /** A peer answers its request. Nothing overlaps exactly when the answer fits, as one of
        no more blocks than were asked for does. */
    method Receive(peer: PeerId, start: nat, blocks: seq<Block>)
      requires Valid() && peer in requests && requests[peer] == start
      modifies this
      ensures requests == old(requests) - {peer}
      ensures ranges == if blocks == [] then old(ranges) - {start} else old(ranges)[start := Complete(From(blocks, peer))]
      ensures Valid() <==> blocks == [] || Fits(old(ranges), start, |blocks|)
      ensures |blocks| <= old(ranges)[start].Len() ==> Valid()
      ensures blocks != [] ==> HeldExactly(ranges, start, blocks, peer)
      ensures forall s :: s != start ==> (s in ranges <==> s in old(ranges)) && (s in ranges ==> ranges[s] == old(ranges)[s])
    {
      ghost var before := ranges;
      ReceivedAreHeld(before, start, blocks, peer);
      ClearPeerDownload(peer);
      if blocks != [] {
        ReceiptKeepsMatchIff(before, requests, start, From(blocks, peer));
      }
      Insert(start, blocks, peer);
      assert blocks != [] ==> ranges == before[start := Complete(From(blocks, peer))];
    }

    /** An answer to a request for new blocks: what it brings is stored, and what is ready is drained. */
    method OnBlockData(peer: PeerId, start: nat, blocks: seq<Block>, from: nat) returns (drained: seq<BlockData>, ghost bottom: nat)
      requires Valid() && peer in requests && requests[peer] == start
      modifies this
      ensures requests == old(requests) - {peer}
      ensures blocks == [] || Fits(old(ranges), start, |blocks|) ==>
                && Valid()
                && var held := if blocks == [] then old(ranges) - {start} else old(ranges)[start := Complete(From(blocks, peer))];
                   Drained(held, from, drained, ranges, bottom)
      ensures blocks != [] && Fits(old(ranges), start, |blocks|) ==> HandsOut(drained, bottom, start, blocks, peer)
    {
      Receive(peer, start, blocks);
      ghost var held := ranges;
      drained, bottom := Drain(from);
      if blocks != [] && Fits(old(ranges), start, |blocks|) {
        DrainHandsOut(held, from, drained, ranges, bottom, start, blocks, peer);
      }
    }
  }
}
