/** Which validator works on which chain: the roster is dealt out, shuffled by a seed, and read
    back into groups with their thresholds. */
module Duties {
  import opened Primitives
  import opened Tallies
  import opened Records
  import opened Codec

  function Role(c: Chain): Chain { c }

  // ---------- Dealing ----------

  /** The validators each parachain gets; one at least stays for the relay chain. */
  function PerParachain(parachains: nat, validators: nat): nat
    requires validators > 0
  {
    if parachains == 0 then 0 else (validators - 1) / parachains
  }

  function Dealt(parachains: seq<nat>, per: nat, i: nat): Chain {
    if i < |parachains| * per && per > 0 && i / per < |parachains| then Parachain(parachains[i / per]) else Relay
  }

  function AllDealt(parachains: seq<nat>, per: nat, n: nat): (r: seq<Chain>)
    ensures |r| == n
  {
    seq(n, i requires 0 <= i < n => Dealt(parachains, per, i))
  }

  ghost predicate Distinct<T(!new)>(s: seq<T>) {
    forall i, j :: 0 <= i < j < |s| ==> s[i] != s[j]
  }

  lemma QuotientIs(i: nat, per: nat, k: nat)
    requires per > 0
    ensures i / per == k <==> k * per <= i < k * per + per
  {
    if k * per <= i < k * per + per {
      assert i == per * k + (i - k * per);
      DivUnique(i, per, k, i - k * per);
    }
  }

  lemma DivUnique(i: nat, per: nat, k: nat, r: nat)
    requires per > 0 && r < per && i == per * k + r
    ensures i / per == k
  {
    var q := i / per;
    assert i == per * q + i % per;
    assert q < k ==> per * (q + 1) <= per * k;
    assert k < q ==> per * (k + 1) <= per * q;
  }

  /** How many of the first `n` roles are the k-th parachain's: the overlap with its stretch. */
  function Overlap(n: nat, from: nat, per: nat): nat {
    if n <= from then 0 else if n <= from + per then n - from else per
  }

  lemma WithinDeal(parachains: seq<nat>, per: nat, k: nat)
    requires k < |parachains|
    ensures k * per + per <= |parachains| * per
  {
    assert (k + 1) * per <= |parachains| * per;
  }

  lemma DealtIs(parachains: seq<nat>, per: nat, i: nat, k: nat)
    requires Distinct(parachains) && k < |parachains|
    ensures Dealt(parachains, per, i) == Parachain(parachains[k]) <==> k * per <= i < k * per + per
  {
    WithinDeal(parachains, per, k);
    if per > 0 {
      QuotientIs(i, per, k);
    }
  }

  lemma {:induction false} DealtTally(parachains: seq<nat>, per: nat, n: nat, k: nat)
    requires Distinct(parachains) && k < |parachains|
    ensures Tally(Role, AllDealt(parachains, per, n), Parachain(parachains[k])) == Overlap(n, k * per, per)
  {
    if n > 0 {
      DealtTally(parachains, per, n - 1, k);
      DealtIs(parachains, per, n - 1, k);
      assert AllDealt(parachains, per, n)[..n - 1] == AllDealt(parachains, per, n - 1);
    }
  }

  lemma {:induction false} RelayTally(parachains: seq<nat>, per: nat, n: nat)
    ensures Tally(Role, AllDealt(parachains, per, n), Relay) == if n <= |parachains| * per then 0 else n - |parachains| * per
  {
    if n > 0 {
      RelayTally(parachains, per, n - 1);
      assert AllDealt(parachains, per, n)[..n - 1] == AllDealt(parachains, per, n - 1);
      if n - 1 < |parachains| * per {
        SmallQuotient(n - 1, per, |parachains|);
      }
    }
  }

  lemma SmallQuotient(i: nat, per: nat, p: nat)
    requires i < p * per
    ensures per > 0 && i / per < p
  {
    assert per > 0;
    var q := i / per;
    assert i == per * q + i % per;
    assert p <= q ==> per * p <= per * q;
  }

  /** Every parachain has its share of the roles and the relay chain has the rest. */
  ghost predicate Shared(roles: seq<Chain>, parachains: seq<nat>, validators: nat)
    requires validators > 0
  {
    var per := if parachains == [] then 0 else (validators - 1) / |parachains|;
    && |roles| == validators
    && (forall k :: 0 <= k < |parachains| ==> Tally(Role, roles, Parachain(parachains[k])) == per)
    && Tally(Role, roles, Relay) == validators - |parachains| * per >= 1
    && forall id: nat :: id !in parachains ==> Tally(Role, roles, Parachain(id)) == 0
  }

  lemma DealIsShared(parachains: seq<nat>, validators: nat)
    requires validators > 0 && Distinct(parachains)
    ensures Shared(AllDealt(parachains, PerParachain(|parachains|, validators), validators), parachains, validators)
  {
    var per := PerParachain(|parachains|, validators);
    var roles := AllDealt(parachains, per, validators);
    ShareFits(|parachains|, validators);
    forall k | 0 <= k < |parachains| ensures Tally(Role, roles, Parachain(parachains[k])) == per {
      DealtTally(parachains, per, validators, k);
      WithinDeal(parachains, per, k);
    }
    RelayTally(parachains, per, validators);
    forall id: nat | id !in parachains ensures Tally(Role, roles, Parachain(id)) == 0 {
      TallyHas(Role, roles, Parachain(id));
    }
  }

  lemma ShareFits(p: nat, v: nat)
    requires v > 0
    ensures p * PerParachain(p, v) <= v - 1
  {
    if p > 0 {
      assert v - 1 == p * ((v - 1) / p) + (v - 1) % p;
    }
  }

  /** Each parachain in turn gets its stretch of roles, and the relay chain gets those behind. */
  ghost predicate IsDeal(roles: seq<Chain>, parachains: seq<nat>, validators: nat)
    requires validators > 0
  {
    var per := if parachains == [] then 0 else (validators - 1) / |parachains|;
    && |roles| == validators
    && (forall i, k :: 0 <= i < validators && 0 <= k < |parachains| ==> (roles[i] == Parachain(parachains[k]) <==> k * per <= i < k * per + per))
    && (forall i :: |parachains| * per <= i < validators ==> roles[i] == Relay)
  }

  lemma DealIsInOrder(parachains: seq<nat>, validators: nat)
    requires validators > 0 && Distinct(parachains)
    ensures IsDeal(AllDealt(parachains, PerParachain(|parachains|, validators), validators), parachains, validators)
  {
    var per := PerParachain(|parachains|, validators);
    var roles := AllDealt(parachains, per, validators);
    forall i, k | 0 <= i < validators && 0 <= k < |parachains| ensures roles[i] == Parachain(parachains[k]) <==> k * per <= i < k * per + per {
      DealtIs(parachains, per, i, k);
    }
  }

  // ---------- Shuffling ----------

  /** The little-endian number in four bytes of the seed. */
  function Word(seed: Bytes, offset: nat): nat
    requires offset + 4 <= |seed|
  {
    seed[offset] as nat + 256 * (seed[offset + 1] as nat + 256 * (seed[offset + 2] as nat + 256 * (seed[offset + 3] as nat)))
  }

  function Swapped<T>(s: seq<T>, i: nat, j: nat): seq<T>
    requires i < |s| && j < |s|
  {
    s[i := s[j]][j := s[i]]
  }

  lemma SwapTally(s: seq<Chain>, i: nat, j: nat, c: Chain)
    requires i < |s| && j < |s|
    ensures Tally(Role, Swapped(s, i, j), c) == Tally(Role, s, c)
  {
    SetTally(s, i, s[j], c);
    SetTally(s[i := s[j]], j, s[i], c);
  }

  lemma SetTally(s: seq<Chain>, i: nat, x: Chain, c: Chain)
    requires i < |s|
    ensures Tally(Role, s[i := x], c) == Tally(Role, s, c) + (if x == c then 1 else 0) - (if s[i] == c then 1 else 0)
  {
    TallyWithout(Role, s, i, c);
    TallyWithout(Role, s[i := x], i, c);
    assert s[i := x][..i] + s[i := x][i + 1..] == s[..i] + s[i + 1..];
  }

  /** The same roles in some order. */
  ghost predicate Reordered(roles: seq<Chain>, before: seq<Chain>) {
    |roles| == |before| && forall c :: Tally(Role, roles, c) == Tally(Role, before, c)
  }

  lemma ReorderedIsShared(roles: seq<Chain>, before: seq<Chain>, parachains: seq<nat>, validators: nat)
    requires validators > 0 && Shared(before, parachains, validators) && Reordered(roles, before)
    ensures Shared(roles, parachains, validators)
  {
  }

  /** The choice that the seed makes among the remaining roles: eight bytes for each turn. */
  function Pick(seed: Bytes, i: nat, half: nat, remaining: nat): (r: nat)
    requires |seed| == 32 && half < 2 && remaining > 0
    ensures r < remaining
  {
    Word(seed, i * 8 % 32 + 4 * half) % remaining
  }

  /** The seed for the next turn: rehashed when its 32 bytes are used up. */
  function NextSeed(blake2: Bytes -> Bytes, seed: Bytes, i: nat): Bytes {
    if i * 8 % 32 == 24 then blake2(seed) else seed
  }

  function SeedAt(blake2: Bytes -> Bytes, seed: Bytes, i: nat): (r: Bytes)
    requires |seed| == 32 && forall s :: |blake2(s)| == 32
    ensures |r| == 32
  {
    if i == 0 then seed else NextSeed(blake2, SeedAt(blake2, seed, i - 1), i - 1)
  }

  /** A turn exchanges the last remaining role with a chosen one. */
  function Turned(roles: seq<Chain>, seed: Bytes, half: nat, i: nat): (r: seq<Chain>)
    requires |seed| == 32 && half < 2 && i < |roles|
    ensures |r| == |roles|
  {
    Swapped(roles, |roles| - i - 1, Pick(seed, i, half, |roles| - i))
  }

  /** The roles after `i` turns. */
  function Shuffled(roles: seq<Chain>, blake2: Bytes -> Bytes, seed: Bytes, half: nat, i: nat): (r: seq<Chain>)
    requires |seed| == 32 && (forall s :: |blake2(s)| == 32) && half < 2 && i < |roles|
    ensures |r| == |roles|
  {
    if i == 0 then roles else Turned(Shuffled(roles, blake2, seed, half, i - 1), SeedAt(blake2, seed, i - 1), half, i - 1)
  }

  lemma TurnReorders(roles: seq<Chain>, seed: Bytes, half: nat, i: nat)
    requires |seed| == 32 && half < 2 && i < |roles|
    ensures Reordered(Turned(roles, seed, half, i), roles)
  {
    forall c ensures Tally(Role, Turned(roles, seed, half, i), c) == Tally(Role, roles, c) {
      SwapTally(roles, |roles| - i - 1, Pick(seed, i, half, |roles| - i), c);
    }
  }

  lemma {:induction false} ShuffleReorders(roles: seq<Chain>, blake2: Bytes -> Bytes, seed: Bytes, half: nat, i: nat)
    requires |seed| == 32 && (forall s :: |blake2(s)| == 32) && half < 2 && i < |roles|
    ensures Reordered(Shuffled(roles, blake2, seed, half, i), roles)
  {
    if i > 0 {
      ShuffleReorders(roles, blake2, seed, half, i - 1);
      TurnReorders(Shuffled(roles, blake2, seed, half, i - 1), SeedAt(blake2, seed, i - 1), half, i - 1);
    }
  }

  // ---------- The shuffle, turn by turn ----------

  /** Eight bytes of the seed are used in each turn, and it is rehashed after every fourth. */
  ghost predicate SeedsOf(blake2: Bytes -> Bytes, seed: Bytes, seeds: seq<Bytes>) {
    && seeds != [] && seeds[0] == seed
    && forall i :: 0 <= i < |seeds| - 1 ==> seeds[i + 1] == if i % 4 == 3 then blake2(seeds[i]) else seeds[i]
  }

  /** The place that turn `i` draws among those that remain: the number in four of its eight bytes,
      from `half` on. */
  ghost function Drawn(seed: Bytes, i: nat, half: nat, remaining: nat): (x: nat)
    requires |seed| == 32 && half <= 4 && remaining > 0
    ensures x < remaining
  {
    var at := 8 * (i % 4) + half;
    FromLittleEndian(seed[at..at + 4]) % remaining
  }

  /** The last of the places that remain is exchanged with another; nothing else moves. */
  ghost predicate Exchanges(before: seq<Chain>, after: seq<Chain>, last: nat, x: nat)
    requires x <= last < |before|
  {
    && |after| == |before| && after[last] == before[x] && after[x] == before[last]
    && forall k :: 0 <= k < |before| && k != last && k != x ==> after[k] == before[k]
  }

  ghost predicate TurnOf(before: seq<Chain>, after: seq<Chain>, seed: Bytes, half: nat, i: nat)
    requires half <= 4
  {
    |seed| == 32 && i < |before| && Exchanges(before, after, |before| - 1 - i, Drawn(seed, i, half, |before| - i))
  }

  /** The roles after each turn. */
  ghost predicate Turns(roles: seq<Chain>, seeds: seq<Bytes>, half: nat, steps: seq<seq<Chain>>)
    requires half <= 4
  {
    && |steps| == |seeds| == |roles| && steps != [] && steps[0] == roles
    && (forall i :: 0 <= i < |steps| ==> |steps[i]| == |roles|)
    && forall i :: 0 <= i < |steps| - 1 ==> TurnOf(steps[i], steps[i + 1], seeds[i], half, i)
  }

  /** The roles after all turns. */
  ghost predicate IsShuffle(roles: seq<Chain>, blake2: Bytes -> Bytes, seed: Bytes, half: nat, result: seq<Chain>)
    requires half <= 4
  {
    exists seeds, steps :: SeedsOf(blake2, seed, seeds) && Turns(roles, seeds, half, steps) && steps[|steps| - 1] == result
  }

  lemma FourBytes(seed: Bytes, at: nat)
    requires at + 4 <= |seed|
    ensures Word(seed, at) == FromLittleEndian(seed[at..at + 4])
  {
    var b := seed[at..at + 4];
    assert b[1..][1..] == b[2..] && b[2..][1..] == b[3..] && b[3..][1..] == [];
    assert FromLittleEndian(b[3..]) == b[3] as nat;
    assert FromLittleEndian(b[2..]) == b[2] as nat + 256 * FromLittleEndian(b[3..]);
    assert FromLittleEndian(b[1..]) == b[1] as nat + 256 * FromLittleEndian(b[2..]);
  }

  lemma EightBytes(i: nat)
    ensures i * 8 % 32 == 8 * (i % 4)
  {
    assert i == 4 * (i / 4) + i % 4;
    assert i * 8 == 32 * (i / 4) + 8 * (i % 4);
  }

  lemma PickIsDrawn(seed: Bytes, i: nat, half: nat, remaining: nat)
    requires |seed| == 32 && half < 2 && remaining > 0
    ensures Pick(seed, i, half, remaining) == Drawn(seed, i, 4 * half, remaining)
  {
    EightBytes(i);
    FourBytes(seed, 8 * (i % 4) + 4 * half);
  }

  lemma TurnExchanges(roles: seq<Chain>, seed: Bytes, half: nat, i: nat)
    requires |seed| == 32 && half < 2 && i < |roles|
    ensures TurnOf(roles, Turned(roles, seed, half, i), seed, 4 * half, i)
  {
    PickIsDrawn(seed, i, half, |roles| - i);
  }

  lemma SeedsAreRehashed(blake2: Bytes -> Bytes, seed: Bytes, n: nat) returns (seeds: seq<Bytes>)
    requires |seed| == 32 && (forall s :: |blake2(s)| == 32) && n > 0
    ensures |seeds| == n && SeedsOf(blake2, seed, seeds) && forall i :: 0 <= i < n ==> seeds[i] == SeedAt(blake2, seed, i)
  {
    seeds := seq(n, i requires 0 <= i < n => SeedAt(blake2, seed, i));
    forall i | 0 <= i < n - 1 ensures seeds[i + 1] == if i % 4 == 3 then blake2(seeds[i]) else seeds[i] {
      EightBytes(i);
    }
  }

  /** The shuffle exchanges what the bytes of the seed draw. */
  lemma ShuffleIsDrawn(roles: seq<Chain>, blake2: Bytes -> Bytes, seed: Bytes, half: nat)
    requires |seed| == 32 && (forall s :: |blake2(s)| == 32) && half < 2 && roles != []
    ensures IsShuffle(roles, blake2, seed, 4 * half, Shuffled(roles, blake2, seed, half, |roles| - 1))
  {
    var n := |roles|;
    var seeds := SeedsAreRehashed(blake2, seed, n);
    var steps := seq(n, i requires 0 <= i < n => Shuffled(roles, blake2, seed, half, i));
    forall i | 0 <= i < n - 1 ensures TurnOf(steps[i], steps[i + 1], seeds[i], 4 * half, i) {
      TurnExchanges(steps[i], seeds[i], half, i);
    }
    assert Turns(roles, seeds, 4 * half, steps);
  }

  /** A place that a turn has filled is not touched again. */
  lemma {:induction false} PlaceStays(roles: seq<Chain>, seeds: seq<Bytes>, half: nat, steps: seq<seq<Chain>>, i: nat, j: nat)
    requires half <= 4 && Turns(roles, seeds, half, steps) && i < j < |steps|
    ensures steps[j][|roles| - 1 - i] == steps[i + 1][|roles| - 1 - i]
  {
    if i + 1 < j {
      PlaceStays(roles, seeds, half, steps, i, j - 1);
      assert TurnOf(steps[j - 1], steps[j], seeds[j - 1], half, j - 1);
    }
  }

  /** What each place of the result holds: what stood at the drawn place when its turn came. */
  lemma PlaceIsDrawn(roles: seq<Chain>, seeds: seq<Bytes>, half: nat, steps: seq<seq<Chain>>, i: nat)
    requires half <= 4 && Turns(roles, seeds, half, steps) && i < |roles| - 1
    ensures |seeds[i]| == 32 && steps[|roles| - 1][|roles| - 1 - i] == steps[i][Drawn(seeds[i], i, half, |roles| - i)]
  {
    PlaceStays(roles, seeds, half, steps, i, |roles| - 1);
    assert TurnOf(steps[i], steps[i + 1], seeds[i], half, i);
  }

  /** The last place is the first drawn. */
  lemma LastPlaceIsDrawn(roles: seq<Chain>, blake2: Bytes -> Bytes, seed: Bytes, half: nat, result: seq<Chain>)
    requires half <= 4 && |seed| == 32 && |roles| >= 2 && IsShuffle(roles, blake2, seed, half, result)
    ensures |result| == |roles| && result[|roles| - 1] == roles[FromLittleEndian(seed[half..half + 4]) % |roles|]
  {
    var seeds, steps :| SeedsOf(blake2, seed, seeds) && Turns(roles, seeds, half, steps) && steps[|steps| - 1] == result;
    PlaceIsDrawn(roles, seeds, half, steps, 0);
  }

  /** The dealt roles, exchanged as the bytes at `half` of each turn's eight draw; every parachain
      keeps its share. */
  ghost predicate IsDuty(dealt: seq<Chain>, parachains: seq<nat>, blake2: Bytes -> Bytes, seed: Bytes, half: nat, duty: seq<Chain>)
    requires half <= 4 && |seed| == 32 && dealt != []
  {
    && IsShuffle(dealt, blake2, seed, half, duty) && |duty| == |dealt|
    && (|dealt| >= 2 ==> duty[|dealt| - 1] == dealt[FromLittleEndian(seed[half..half + 4]) % |dealt|])
    && Shared(duty, parachains, |dealt|)
  }

  lemma ShuffledIsDuty(dealt: seq<Chain>, parachains: seq<nat>, blake2: Bytes -> Bytes, seed: Bytes, half: nat)
    requires |seed| == 32 && (forall s :: |blake2(s)| == 32) && half < 2 && dealt != [] && Shared(dealt, parachains, |dealt|)
    ensures IsDuty(dealt, parachains, blake2, seed, 4 * half, Shuffled(dealt, blake2, seed, half, |dealt| - 1))
  {
    var duty := Shuffled(dealt, blake2, seed, half, |dealt| - 1);
    ShuffleIsDrawn(dealt, blake2, seed, half);
    if |dealt| >= 2 {
      LastPlaceIsDrawn(dealt, blake2, seed, 4 * half, duty);
    }
    ShuffleReorders(dealt, blake2, seed, half, |dealt| - 1);
    ReorderedIsShared(duty, dealt, parachains, |dealt|);
  }

  method Turn(roles: array<Chain>, seed: Bytes, half: nat, i: nat)
    requires |seed| == 32 && half < 2 && i < roles.Length
    modifies roles
    ensures roles[..] == Turned(old(roles[..]), seed, half, i)
  {
    var remaining := roles.Length - i;
    var index := Pick(seed, i, half, remaining);
    roles[remaining - 1], roles[index] := roles[index], roles[remaining - 1];
  }

  /** Both rosters are shuffled in place, with one half of each turn's entropy each. */
  method Shuffle(val: array<Chain>, gua: array<Chain>, blake2: Bytes -> Bytes, seed: Bytes)
    requires val != gua && val.Length == gua.Length > 0
    requires |seed| == 32 && forall s :: |blake2(s)| == 32
    modifies val, gua
    ensures val[..] == Shuffled(old(val[..]), blake2, seed, 0, val.Length - 1)
    ensures gua[..] == Shuffled(old(gua[..]), blake2, seed, 1, gua.Length - 1)
  {
    var seed' := seed;
    for i := 0 to val.Length - 1
      invariant seed' == SeedAt(blake2, seed, i)
      invariant val[..] == Shuffled(old(val[..]), blake2, seed, 0, i)
      invariant gua[..] == Shuffled(old(gua[..]), blake2, seed, 1, i)
    {
      Turn(val, seed', 0, i);
      Turn(gua, seed', 1, i);
      seed' := NextSeed(blake2, seed', i);
    }
  }

  /** The duty roster of a block. `blake2` is the hash; the seed has been mixed already. */
  method CalculateDutyRoster(parachains: seq<nat>, validators: nat, blake2: Bytes -> Bytes, seed: Bytes) returns (roster: DutyRoster)
    requires validators > 0 && Distinct(parachains)
    requires |seed| == 32 && forall s :: |blake2(s)| == 32
    ensures var dealt := AllDealt(parachains, PerParachain(|parachains|, validators), validators);
            && IsDuty(dealt, parachains, blake2, seed, 0, roster.validatorDuty)
            && IsDuty(dealt, parachains, blake2, seed, 4, roster.guarantorDuty)
  {
    var per := PerParachain(|parachains|, validators);
    ghost var dealt := AllDealt(parachains, per, validators);
    DealIsShared(parachains, validators);
    var val := new Chain[validators](i => Dealt(parachains, per, i));
    var gua := new Chain[validators](i => Dealt(parachains, per, i));
    assert val[..] == dealt && gua[..] == dealt;
    Shuffle(val, gua, blake2, seed);
    ShuffledIsDuty(dealt, parachains, blake2, seed, 0);
    ShuffledIsDuty(dealt, parachains, blake2, seed, 1);
    roster := DutyRoster(val[..], gua[..]);
  }

  // ---------- Groups ----------

  type AuthorityId(==, !new)

  datatype GroupInfo = GroupInfo(validity: set<AuthorityId>, availability: set<AuthorityId>, neededValidity: nat, neededAvailability: nat)

  datatype Failure = InvalidDutyRosterLength(expected: nat, got: nat) | NotValidator(id: AuthorityId)

  /** The authorities with a duty on a chain, among the first `n`. */
  ghost function Members(authorities: seq<AuthorityId>, duty: seq<Chain>, n: nat, c: Chain): set<AuthorityId>
    requires n <= |authorities| == |duty|
  {
    set i | 0 <= i < n && duty[i] == c :: authorities[i]
  }

  lemma {:induction false} MembersCount(authorities: seq<AuthorityId>, duty: seq<Chain>, n: nat, c: Chain)
    requires n <= |authorities| == |duty| && Distinct(authorities)
    ensures |Members(authorities, duty, n, c)| == Tally(Role, duty[..n], c)
  {
    if n > 0 {
      MembersCount(authorities, duty, n - 1, c);
      MembersNext(authorities, duty, n - 1, c);
      assert duty[..n][..n - 1] == duty[..n - 1];
    }
  }

  lemma MembersNext(authorities: seq<AuthorityId>, duty: seq<Chain>, n: nat, c: Chain)
    requires n < |authorities| == |duty|
    ensures Members(authorities, duty, n + 1, c) == Members(authorities, duty, n, c) + if duty[n] == c then {authorities[n]} else {}
    ensures Distinct(authorities) ==> authorities[n] !in Members(authorities, duty, n, c)
  {
    var next := Members(authorities, duty, n + 1, c);
    forall a ensures a in next <==> a in Members(authorities, duty, n, c) + if duty[n] == c then {authorities[n]} else {} {
      if a in Members(authorities, duty, n, c) {
        var i :| 0 <= i < n && duty[i] == c && authorities[i] == a;
        assert a in next;
      }
    }
  }

  ghost predicate GroupAt(authorities: seq<AuthorityId>, roster: DutyRoster, n: nat, groups: map<nat, GroupInfo>, id: nat)
    requires n <= |authorities| == |roster.validatorDuty| == |roster.guarantorDuty|
  {
    var v, g := Members(authorities, roster.validatorDuty, n, Parachain(id)), Members(authorities, roster.guarantorDuty, n, Parachain(id));
    && (id in groups <==> v != {} || g != {})
    && (id in groups ==> groups[id].validity == v && groups[id].availability == g)
  }

  function Half(n: nat): nat {
    n / 2 + n % 2
  }

  const EMPTY_GROUP := GroupInfo({}, {}, 0, 0)

  function Group(groups: map<nat, GroupInfo>, id: nat): GroupInfo {
    if id in groups then groups[id] else EMPTY_GROUP
  }

  function WithDuties(groups: map<nat, GroupInfo>, a: AuthorityId, validator: Chain, guarantor: Chain): map<nat, GroupInfo> {
    var first := match validator
      case Relay => groups
      case Parachain(id) => groups[id := Group(groups, id).(validity := Group(groups, id).validity + {a})];
    match guarantor
    case Relay => first
    case Parachain(id) => first[id := Group(first, id).(availability := Group(first, id).availability + {a})]
  }

  lemma DutiesAdded(authorities: seq<AuthorityId>, roster: DutyRoster, n: nat, groups: map<nat, GroupInfo>, id: nat)
    requires n < |authorities| == |roster.validatorDuty| == |roster.guarantorDuty|
    requires GroupAt(authorities, roster, n, groups, id)
    ensures GroupAt(authorities, roster, n + 1, WithDuties(groups, authorities[n], roster.validatorDuty[n], roster.guarantorDuty[n]), id)
  {
    MembersNext(authorities, roster.validatorDuty, n, Parachain(id));
    MembersNext(authorities, roster.guarantorDuty, n, Parachain(id));
  }

  /** Half of the members of each kind, rounded up, decide. */
  ghost predicate HalfDecides(g: GroupInfo) {
    && |g.validity| <= 2 * g.neededValidity <= |g.validity| + 1
    && |g.availability| <= 2 * g.neededAvailability <= |g.availability| + 1
  }

  function WithThresholds(g: GroupInfo): GroupInfo {
    g.(neededValidity := Half(|g.validity|), neededAvailability := Half(|g.availability|))
  }

  /** The groups of a roster, and the local duty. */
  method MakeGroupInfo(roster: DutyRoster, authorities: seq<AuthorityId>, local: AuthorityId)
    returns (r: Result<(map<nat, GroupInfo>, Chain), Failure>)
    ensures |roster.validatorDuty| != |authorities| ==> r == Err(InvalidDutyRosterLength(|authorities|, |roster.validatorDuty|))
    ensures |roster.validatorDuty| == |authorities| != |roster.guarantorDuty| ==> r == Err(InvalidDutyRosterLength(|authorities|, |roster.guarantorDuty|))
    ensures |roster.validatorDuty| == |authorities| == |roster.guarantorDuty| ==>
              && (local !in authorities ==> r == Err(NotValidator(local)))
              && (local in authorities ==>
                    && r.Ok?
                    && (forall id: nat :: GroupAt(authorities, roster, |authorities|, r.value.0, id))
                    && (forall id :: id in r.value.0 ==> HalfDecides(r.value.0[id]))
                    && exists i :: 0 <= i < |authorities| && authorities[i] == local && roster.validatorDuty[i] == r.value.1 && local !in authorities[i + 1..])
  {
    if |roster.validatorDuty| != |authorities| {
      return Err(InvalidDutyRosterLength(|authorities|, |roster.validatorDuty|));
    }
    if |roster.guarantorDuty| != |authorities| {
      return Err(InvalidDutyRosterLength(|authorities|, |roster.guarantorDuty|));
    }
    var localDuty: Option<Chain> := None;
    var groups: map<nat, GroupInfo> := map[];
    for n := 0 to |authorities|
      invariant forall id: nat :: GroupAt(authorities, roster, n, groups, id)
      invariant localDuty.None? <==> local !in authorities[..n]
      invariant localDuty.Some? ==> exists i :: 0 <= i < n && authorities[i] == local && roster.validatorDuty[i] == localDuty.value && local !in authorities[i + 1..n]
    {
      if authorities[n] == local {
        localDuty := Some(roster.validatorDuty[n]);
        assert local !in authorities[n + 1..n + 1];
      }
      var next, groups' := n + 1, WithDuties(groups, authorities[n], roster.validatorDuty[n], roster.guarantorDuty[n]);
      forall id: nat ensures GroupAt(authorities, roster, next, groups', id) {
        DutiesAdded(authorities, roster, n, groups, id);
      }
      groups := groups';
    }
    assert authorities[..|authorities|] == authorities;
    ghost var plain := groups;
    groups := map id | id in groups :: WithThresholds(groups[id]);
    forall id: nat ensures GroupAt(authorities, roster, |authorities|, groups, id) {
      assert GroupAt(authorities, roster, |authorities|, plain, id);
    }
    r := if localDuty.Some? then Ok((groups, localDuty.value)) else Err(NotValidator(local));
  }

  /** From roster to groups: with distinct authorities, the groups are those of the parachains,
      all of the same size, and half of a group, rounded up, decides. */
  lemma GroupsHaveTheirShare(roster: DutyRoster, parachains: seq<nat>, authorities: seq<AuthorityId>, groups: map<nat, GroupInfo>)
    requires |authorities| > 0 && Distinct(parachains) && Distinct(authorities)
    requires Shared(roster.validatorDuty, parachains, |authorities|) && Shared(roster.guarantorDuty, parachains, |authorities|)
    requires forall id: nat :: GroupAt(authorities, roster, |authorities|, groups, id)
    requires forall id :: id in groups ==> HalfDecides(groups[id])
    ensures var per := if parachains == [] then 0 else (|authorities| - 1) / |parachains|;
            && (forall id: nat :: id in groups <==> per > 0 && id in parachains)
            && (forall id :: id in groups ==>
                  && |groups[id].validity| == |groups[id].availability| == per
                  && 2 * groups[id].neededValidity - 1 <= per <= 2 * groups[id].neededValidity
                  && groups[id].neededAvailability == groups[id].neededValidity)
  {
    var per, n := PerParachain(|parachains|, |authorities|), |authorities|;
    assert roster.validatorDuty[..n] == roster.validatorDuty && roster.guarantorDuty[..n] == roster.guarantorDuty;
    forall id: nat
      ensures |Members(authorities, roster.validatorDuty, n, Parachain(id))| == |Members(authorities, roster.guarantorDuty, n, Parachain(id))|
           == if id in parachains then per else 0 {
      MembersCount(authorities, roster.validatorDuty, n, Parachain(id));
      MembersCount(authorities, roster.guarantorDuty, n, Parachain(id));
      if id in parachains {
        var k :| 0 <= k < |parachains| && parachains[k] == id;
      }
    }
    forall id: nat ensures id in groups <==> per > 0 && id in parachains {
      assert GroupAt(authorities, roster, n, groups, id);
    }
    forall id | id in groups
      ensures |groups[id].validity| == |groups[id].availability| == per && 2 * groups[id].neededValidity - 1 <= per <= 2 * groups[id].neededValidity
      ensures groups[id].neededAvailability == groups[id].neededValidity {
      assert GroupAt(authorities, roster, n, groups, id);
    }
  }
}
