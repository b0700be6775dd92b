/** The active parachains, and the two checks on the heads proposed for them: the proposer's peers
    check a proposal, and the runtime checks the call that sets the heads. */
module Heads {
  import opened Primitives
  import opened Ordered

  type Id = nat

  // ---------- The active parachains ----------

  /** Binary search in an ascending list: where the id is, or where it would go. */
  method BinarySearch(ids: seq<Id>, id: Id) returns (found: bool, at: nat)
    requires Ascends(ids)
    ensures at <= |ids| && (forall i :: 0 <= i < at ==> ids[i] < id) && (forall i :: at <= i < |ids| ==> id <= ids[i])
    ensures found <==> at < |ids| && ids[at] == id
    ensures found <==> id in ids
  {
    var lo, hi := 0, |ids|;
    while lo < hi
      invariant lo <= hi <= |ids|
      invariant forall i :: 0 <= i < lo ==> ids[i] < id
      invariant forall i :: hi <= i < |ids| ==> id <= ids[i]
    {
      var mid := (lo + hi) / 2;
      if ids[mid] < id {
        lo := mid + 1;
      } else {
        hi := mid;
      }
    }
    at := lo;
    found := at < |ids| && ids[at] == id;
  }

  /** One configured code for each id. Which one, if an id is configured twice, is left to the sort. */
  method CodesFor(chains: seq<(Id, Bytes)>, ids: seq<Id>) returns (code: map<Id, Bytes>)
    requires forall i :: 0 <= i < |ids| ==> exists c :: c in chains && c.0 == ids[i]
    ensures code.Keys == Elems(ids) && forall id :: id in code ==> (id, code[id]) in chains
  {
    code := map[];
    for n := 0 to |ids|
      invariant code.Keys == Elems(ids[..n]) && forall id :: id in code ==> (id, code[id]) in chains
    {
      var c :| c in chains && c.0 == ids[n];
      assert Elems(ids[..n + 1]) == Elems(ids[..n]) + {ids[n]};
      code := code[c.0 := c.1];
    }
    assert ids[..|ids|] == ids;
  }

  class Parachains {
    /** Where in a block the heads are set. */
    const setPosition: nat
    var active: seq<Id>
    var code: map<Id, Bytes>
    var heads: map<Id, Bytes>
    var didUpdate: bool

    /** The genesis ids, sorted and without repetitions, with their codes; there are no heads yet. */
    constructor Genesis(chains: seq<(Id, Bytes)>, position: nat)
      ensures setPosition == position && Ascends(active) && Elems(active) == set c | c in chains :: c.0
      ensures code.Keys == Elems(active) && forall id :: id in code ==> (id, code[id]) in chains
      ensures heads == map[] && !didUpdate
    {
      var ids := Ascending(set c | c in chains :: c.0);
      forall i | 0 <= i < |ids| ensures exists c :: c in chains && c.0 == ids[i] {
        assert ids[i] in Elems(ids);
      }
      var codes := CodesFor(chains, ids);
      setPosition, active, code := position, ids, codes;
      heads, didUpdate := map[], false;
    }

    /** Registering an id that is in use panics. */
    method Register(id: Id, newCode: Bytes, head: Bytes) returns (panics: bool)
      requires Ascends(active)
      modifies this`active, this`code, this`heads
      ensures Ascends(active) && Elems(active) == old(Elems(active)) + {id}
      ensures panics <==> id in old(active)
      ensures panics ==> active == old(active) && code == old(code) && heads == old(heads)
      ensures !panics ==> code == old(code)[id := newCode] && heads == old(heads)[id := head]
    {
      var found, at := BinarySearch(active, id);
      if found {
        assert id in Elems(active);
        return true;
      }
      panics := false;
      ElemsInsert(active, at, id);
      active := active[..at] + [id] + active[at..];
      code, heads := code[id := newCode], heads[id := head];
    }

    method Deregister(id: Id)
      requires Ascends(active)
      modifies this`active, this`code, this`heads
      ensures Ascends(active) && Elems(active) == old(Elems(active)) - {id}
      ensures code == old(code) - {id} && heads == old(heads) - {id}
    {
      var found, at := BinarySearch(active, id);
      if found {
        ElemsRemove(active, at);
        active := active[..at] + active[at + 1..];
      }
      code, heads := code - {id}, heads - {id};
    }

    /** Set the heads of some parachains, once in a block, in an unsigned call at its position. */
    method SetHeads(signed: bool, index: nat, submitted: seq<(Id, Bytes)>) returns (ok: bool)
      requires Ascends(active)
      modifies this`heads, this`didUpdate
      ensures ok <==> !signed && !old(didUpdate) && index == setPosition && Proper(active, Ids(submitted))
      ensures !ok ==> heads == old(heads) && didUpdate == old(didUpdate)
      ensures ok ==> didUpdate && Wrote(old(heads), submitted, |submitted|, heads)
    {
      if signed || didUpdate || index != setPosition {
        return false;
      }
      var passes := RuntimeCheck(active, Ids(submitted));
      if !passes {
        return false;
      }
      heads := StoreAll(heads, submitted);
      didUpdate := true;
      ok := true;
    }

    /** The end of a block, which panics unless the heads were set in it. */
    method Execute() returns (panics: bool)
      modifies this`didUpdate
      ensures panics <==> !old(didUpdate)
      ensures !didUpdate
    {
      panics := !didUpdate;
      didUpdate := false;
    }
  }

  function Ids(submitted: seq<(Id, Bytes)>): (r: seq<Id>)
    ensures |r| == |submitted| && forall i :: 0 <= i < |r| ==> r[i] == submitted[i].0
  {
    seq(|submitted|, i requires 0 <= i < |submitted| => submitted[i].0)
  }

  /** The first `n` heads are written over the old ones. */
  ghost predicate Wrote(heads: map<Id, Bytes>, submitted: seq<(Id, Bytes)>, n: nat, r: map<Id, Bytes>)
    requires n <= |submitted|
  {
    && (forall i :: 0 <= i < n ==> Holds(r, submitted[i].0, submitted[i].1))
    && (forall id :: id in r ==> id in heads || id in Ids(submitted)[..n])
    && (forall id :: id in heads && id !in Ids(submitted)[..n] ==> Holds(r, id, heads[id]))
  }

  lemma WroteNext(heads: map<Id, Bytes>, submitted: seq<(Id, Bytes)>, n: nat, r: map<Id, Bytes>)
    requires n < |submitted| && Ascends(Ids(submitted)) && Wrote(heads, submitted, n, r)
    ensures Wrote(heads, submitted, n + 1, r[submitted[n].0 := submitted[n].1])
  {
    var ids := Ids(submitted);
    assert ids[..n + 1] == ids[..n] + [submitted[n].0];
    forall i | 0 <= i < n ensures submitted[i].0 != submitted[n].0 {
      assert ids[i] < ids[n];
    }
  }

  /** The heads written one after the other. */
  method StoreAll(heads: map<Id, Bytes>, submitted: seq<(Id, Bytes)>) returns (r: map<Id, Bytes>)
    requires Ascends(Ids(submitted))
    ensures Wrote(heads, submitted, |submitted|, r)
  {
    r := heads;
    for n := 0 to |submitted|
      invariant Wrote(heads, submitted, n, r)
    {
      WroteNext(heads, submitted, n, r);
      r := r[submitted[n].0 := submitted[n].1];
    }
  }

  ghost predicate Holds(heads: map<Id, Bytes>, id: Id, head: Bytes) {
    id in heads && heads[id] == head
  }

  lemma ElemsInsert(ids: seq<Id>, at: nat, id: Id)
    requires Ascends(ids) && at <= |ids|
    requires (forall i :: 0 <= i < at ==> ids[i] < id) && (forall i :: at <= i < |ids| ==> id < ids[i])
    ensures Ascends(ids[..at] + [id] + ids[at..]) && Elems(ids[..at] + [id] + ids[at..]) == Elems(ids) + {id}
  {
    var r := ids[..at] + [id] + ids[at..];
    assert Ascends(r) by {
      assert forall i :: 0 <= i < |r| ==> r[i] == if i < at then ids[i] else if i == at then id else ids[i - 1];
    }
    assert ids == ids[..at] + ids[at..];
    forall x ensures x in Elems(r) <==> x in Elems(ids) + {id} {
      assert x in r <==> x in ids[..at] || x == id || x in ids[at..];
      assert x in ids <==> x in ids[..at] || x in ids[at..];
    }
  }

  lemma ElemsRemove(ids: seq<Id>, at: nat)
    requires Ascends(ids) && at < |ids|
    ensures Ascends(ids[..at] + ids[at + 1..]) && Elems(ids[..at] + ids[at + 1..]) == Elems(ids) - {ids[at]}
  {
    var r := ids[..at] + ids[at + 1..];
    assert forall i :: 0 <= i < |r| ==> r[i] == ids[if i < at then i else i + 1];
    assert forall i :: 0 <= i < |ids| && i != at ==> ids[i] == r[if i < at then i else i - 1];
  }

  // ---------- The two checks ----------

  /** Heads in ascending order, without repetitions, of active parachains only. */
  ghost predicate Proper(active: seq<Id>, heads: seq<Id>) {
    Ascends(heads) && forall i :: 0 <= i < |heads| ==> heads[i] in active
  }

  /** The scan has passed the first `n` heads and stands at `pos` in the active list. */
  ghost predicate Scanned(active: seq<Id>, heads: seq<Id>, n: nat, pos: nat)
    requires n <= |heads| && pos <= |active|
  {
    && Proper(active, heads[..n])
    && (if n == 0 then pos == 0 else pos > 0 && active[pos - 1] == heads[n - 1])
  }

  /** Advance an iterator until it yields the id. */
  method FindFrom(active: seq<Id>, pos: nat, id: Id) returns (found: bool, next: nat)
    requires pos <= |active|
    ensures found ==> pos < next <= |active| && active[next - 1] == id
    ensures !found ==> id !in active[pos..]
  {
    next := pos;
    while next < |active|
      invariant pos <= next <= |active| && id !in active[pos..next]
    {
      next := next + 1;
      if active[next - 1] == id {
        return true, next;
      }
    }
    found := false;
  }

  lemma ScanNext(active: seq<Id>, heads: seq<Id>, n: nat, pos: nat, next: nat)
    requires Ascends(active) && n < |heads| && pos < next <= |active| && Scanned(active, heads, n, pos)
    requires active[next - 1] == heads[n]
    ensures Scanned(active, heads, n + 1, next)
  {
    assert heads[..n + 1] == heads[..n] + [heads[n]];
    forall i | 0 <= i < n ensures heads[i] < heads[n] {
      assert heads[..n][i] <= heads[..n][n - 1];
      assert active[pos - 1] < active[next - 1];
    }
  }

  /** A head that the scan cannot find further on makes the list improper. */
  lemma ScanFails(active: seq<Id>, heads: seq<Id>, n: nat, pos: nat)
    requires Ascends(active) && n < |heads| && pos <= |active| && Scanned(active, heads, n, pos)
    requires heads[n] !in active[pos..]
    ensures !Proper(active, heads)
  {
    if n == 0 || heads[n - 1] < heads[n] {
      NotBehind(active, heads, n, pos);
    }
  }

  /** The check in the runtime: one pass over the active parachains. */
  method RuntimeCheck(active: seq<Id>, heads: seq<Id>) returns (passes: bool)
    requires Ascends(active)
    ensures passes <==> Proper(active, heads)
  {
    var pos: nat := 0;
    for n := 0 to |heads|
      invariant pos <= |active| && Scanned(active, heads, n, pos)
    {
      var found, next := FindFrom(active, pos, heads[n]);
      if !found {
        ScanFails(active, heads, n, pos);
        return false;
      }
      ScanNext(active, heads, n, pos, next);
      pos := next;
    }
    assert heads[..|heads|] == heads;
    passes := true;
  }

  /** The heads before the `n`th are proper, and the `n`th does not come after them. */
  ghost predicate FirstOutOfOrder(active: seq<Id>, heads: seq<Id>, n: nat)
    requires n < |heads|
  {
    n > 0 && Proper(active, heads[..n]) && heads[n - 1] >= heads[n]
  }

  /** The heads before the `n`th are proper, and the `n`th comes after them but is not active. */
  ghost predicate FirstUnknown(active: seq<Id>, heads: seq<Id>, n: nat)
    requires n < |heads|
  {
    (n > 0 ==> heads[n - 1] < heads[n]) && Proper(active, heads[..n]) && heads[n] !in active
  }

  datatype Verdict = Accepted | TooManyCandidates | ParachainOutOfOrder | UnknownParachain(id: Id)

  /** The check on a proposal: it compares each head with the one before as well. */
  method EvaluationCheck(active: seq<Id>, heads: seq<Id>) returns (v: Verdict)
    requires Ascends(active)
    ensures v.Accepted? <==> Proper(active, heads)
    ensures v.TooManyCandidates? <==> |heads| > |active|
    ensures v.UnknownParachain? ==> exists n :: 0 <= n < |heads| && FirstUnknown(active, heads, n) && v.id == heads[n]
    ensures v.ParachainOutOfOrder? ==> exists n :: 0 <= n < |heads| && FirstOutOfOrder(active, heads, n)
  {
    if |heads| > |active| {
      if Proper(active, heads) {
        ProperFits(active, heads);
      }
      return TooManyCandidates;
    }
    var lastId: Option<Id>, pos: nat := None, 0;
    for n := 0 to |heads|
      invariant pos <= |active| && Scanned(active, heads, n, pos)
      invariant lastId == if n == 0 then None else Some(heads[n - 1])
    {
      if lastId.Some? && lastId.value >= heads[n] {
        assert FirstOutOfOrder(active, heads, n);
        return ParachainOutOfOrder;
      }
      var found, next := FindFrom(active, pos, heads[n]);
      if !found {
        ScanFails(active, heads, n, pos);
        NotBehind(active, heads, n, pos);
        assert FirstUnknown(active, heads, n);
        return UnknownParachain(heads[n]);
      }
      ScanNext(active, heads, n, pos, next);
      lastId, pos := Some(heads[n]), next;
    }
    assert heads[..|heads|] == heads;
    v := Accepted;
  }

  lemma NotBehind(active: seq<Id>, heads: seq<Id>, n: nat, pos: nat)
    requires Ascends(active) && n < |heads| && pos <= |active| && Scanned(active, heads, n, pos)
    requires heads[n] !in active[pos..] && (n > 0 ==> heads[n - 1] < heads[n])
    ensures heads[n] !in active
  {
    forall i | 0 <= i < |active| ensures active[i] != heads[n] {
      if i < pos {
        assert active[i] <= active[pos - 1];
      } else {
        assert active[pos..][i - pos] == active[i];
      }
    }
  }

  /** A proper list is no longer than the active list. */
  lemma ProperFits(active: seq<Id>, heads: seq<Id>)
    requires Proper(active, heads)
    ensures |heads| <= |active|
  {
    AscendingCount(heads);
    ElemsFit(active);
    SubsetSize(Elems(heads), Elems(active));
  }

  lemma {:induction false} AscendingCount(s: seq<Id>)
    requires Ascends(s)
    ensures |Elems(s)| == |s|
  {
    if s != [] {
      var init := s[..|s| - 1];
      AscendingCount(init);
      assert Elems(s) == Elems(init) + {s[|s| - 1]};
    }
  }

  lemma {:induction false} ElemsFit(s: seq<Id>)
    ensures |Elems(s)| <= |s|
  {
    if s != [] {
      var init := s[..|s| - 1];
      ElemsFit(init);
      assert Elems(s) == Elems(init) + {s[|s| - 1]};
    }
  }

  /** Both checks accept the same lists. */
  method ChecksAgree(active: seq<Id>, heads: seq<Id>) returns (evaluation: Verdict, runtime: bool)
    requires Ascends(active)
    ensures evaluation.Accepted? <==> runtime
  {
    evaluation := EvaluationCheck(active, heads);
    runtime := RuntimeCheck(active, heads);
  }
}
