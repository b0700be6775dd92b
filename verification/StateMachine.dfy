/** Executing calls over a backend: writes go to a two-layer overlay, the storage root and the
    transaction are memoised, and what a program sees is one flat store. */
module StateMachine {
  import opened Primitives
  import opened Changes

  // ---------- Programs ----------

  datatype Failure = CodeEntryDoesNotExist | Trapped(reason: Bytes) | OutOfSteps

  /** What a running program asks of its externalities, or its result. */
  datatype Action =
    | Read(key: Key)
    | Place(key: Key, value: Option<Value>)
    | ClearPrefix(prefix: Bytes)
    | AskRoot
    | Finish(result: Result<Bytes, Failure>)

  datatype Answer = Found(value: Option<Value>) | Done | RootIs(hash: H256)

  /** A program decides on its next action from the answers it was given. */
  type Program = seq<Answer> -> Action

  /** A call: the executor turns the code into a program, and allows it some steps. */
  datatype Call = Call(exec: Bytes -> Program, steps: nat)

  const CODE: Key := [58, 99, 111, 100, 101]

  // ---------- The flat store ----------

  /** What clearing a prefix does to the store a program sees: only keys of the backend go. */
  function Cleared(view: Store, stored: set<Key>, prefix: Bytes): Store {
    view - WithPrefix(stored, prefix)
  }

  function WithPrefix(keys: set<Key>, prefix: Bytes): set<Key> {
    set k | k in keys && prefix <= k
  }

  lemma RemovedOneMore(view: Store, gone: set<Key>, k: Key)
    ensures view - gone - {k} == view - (gone + {k})
  {
  }

  /** Clearing a prefix clears it exactly when no key with the prefix lives in the overlay only. */
  lemma ClearsPrefixIff(view: Store, stored: set<Key>, prefix: Bytes)
    ensures (forall k :: k in Cleared(view, stored, prefix) ==> !(prefix <= k)) <==> (forall k :: k in view && prefix <= k ==> k in stored)
    ensures forall k :: !(prefix <= k) ==> Lookup(Cleared(view, stored, prefix), k) == Lookup(view, k)
  {
    forall k | k in view && prefix <= k ensures k in Cleared(view, stored, prefix) <==> k !in stored {
    }
  }

  /** A program run on one flat store. `stored` are the keys of the backend. */
  function Run(view: Store, stored: set<Key>, root: Store -> H256, p: Program, answers: seq<Answer>, steps: nat): (Store, Result<Bytes, Failure>)
    decreases steps
  {
    if steps == 0 then (view, Err(OutOfSteps))
    else
      match p(answers)
      case Read(k) => Run(view, stored, root, p, answers + [Found(Lookup(view, k))], steps - 1)
      case Place(k, v) => Run(Placed(view, k, v), stored, root, p, answers + [Done], steps - 1)
      case ClearPrefix(x) => Run(Cleared(view, stored, x), stored, root, p, answers + [Done], steps - 1)
      case AskRoot => Run(view, stored, root, p, answers + [RootIs(root(view))], steps - 1)
      case Finish(r) => (view, r)
  }

  /** A call on one flat store: a failure leaves it alone. */
  function Executed(view: Store, stored: set<Key>, root: Store -> H256, call: Call): (Store, Result<Bytes, Failure>) {
    if CODE !in view then (view, Err(CodeEntryDoesNotExist))
    else
      var (after, r) := Run(view, stored, root, call.exec(view[CODE]), [], call.steps);
      (if r.Ok? then after else view, r)
  }

  /** Without code under its key, or when the call fails, nothing changes. */
  lemma CallOutcome(view: Store, stored: set<Key>, root: Store -> H256, call: Call)
    ensures var (after, r) := Executed(view, stored, root, call);
            && (r.Err? ==> after == view)
            && ([0x3a, 0x63, 0x6f, 0x64, 0x65] !in view ==> r == Err(CodeEntryDoesNotExist))
  {
  }

  function AllExecuted(view: Store, stored: set<Key>, root: Store -> H256, calls: seq<Call>): (Store, seq<Result<Bytes, Failure>>) {
    if calls == [] then (view, [])
    else
      var (v, rs) := AllExecuted(view, stored, root, calls[..|calls| - 1]);
      var (after, r) := Executed(v, stored, root, calls[|calls| - 1]);
      (after, rs + [r])
  }

  // ---------- The overlay ----------

  class OverlayedChanges {
    var prospective: Delta
    var committed: Delta

    constructor ()
      ensures prospective == map[] && committed == map[]
    {
      prospective, committed := map[], map[];
    }

    ghost function Total(): Delta
      reads this
    {
      committed + prospective
    }

    /** None: ask the backend. Some(None): deleted. */
    function Storage(key: Key): (r: Option<Option<Value>>)
      reads this
      ensures r == if key in Total() then Some(Total()[key]) else None
    {
      if key in prospective then Some(prospective[key])
      else if key in committed then Some(committed[key])
      else None
    }

    method SetStorage(key: Key, value: Option<Value>)
      modifies this`prospective
      ensures prospective == old(prospective)[key := value]
      ensures Total() == old(Total())[key := value]
    {
      prospective := prospective[key := value];
    }

    method DiscardProspective()
      modifies this`prospective
      ensures prospective == map[] && Total() == committed
    {
      prospective := map[];
    }

    method CommitProspective()
      modifies this
      ensures prospective == map[] && committed == old(Total()) && Total() == old(Total())
    {
      if committed == map[] {
        prospective, committed := committed, prospective;
      } else {
        prospective, committed := map[], committed + prospective;
      }
    }

    method Drain() returns (drained: Delta)
      modifies this`committed
      ensures drained == old(committed) && committed == map[]
    {
      drained := committed;
      committed := map[];
    }
  }

  // ---------- Externalities ----------

  class Ext {
    const overlay: OverlayedChanges
    const backend: Store
    const root: Store -> H256
    var transaction: Option<(Transaction, H256)>

    constructor (overlay: OverlayedChanges, backend: Store, root: Store -> H256)
      ensures this.overlay == overlay && this.backend == backend && this.root == root && Valid()
    {
      this.overlay, this.backend, this.root := overlay, backend, root;
      transaction := None;
    }

    /** The store a program sees. */
    ghost function View(): Store
      reads overlay
    {
      Patched(backend, overlay.Total())
    }

    /** The memo, if there is one, is what would be computed now. */
    ghost predicate Valid()
      reads this, overlay
    {
      transaction.Some? ==> Net(transaction.value.0) == overlay.Total() && transaction.value.1 == root(View())
    }

    method Storage(key: Key) returns (value: Option<Value>)
      ensures value == Lookup(View(), key)
    {
      PatchedAt(backend, overlay.Total(), key);
      var found := overlay.Storage(key);
      value := if found.Some? then found.value else Lookup(backend, key);
    }

    method PlaceStorage(key: Key, value: Option<Value>)
      modifies this, overlay`prospective
      ensures Valid() && View() == Placed(old(View()), key, value)
    {
      PatchedOnce(backend, overlay.Total(), key, value);
      transaction := None;
      overlay.SetStorage(key, value);
    }

    method ClearPrefix(prefix: Bytes)
      modifies this, overlay`prospective
      ensures Valid() && View() == Cleared(old(View()), backend.Keys, prefix)
    {
      transaction := None;
      var rest := WithPrefix(backend.Keys, prefix);
      ghost var gone := {};
      while rest != {}
        invariant transaction.None? && gone + rest == WithPrefix(backend.Keys, prefix)
        invariant View() == old(View()) - gone
        decreases |rest|
      {
        var k :| k in rest;
        PatchedOnce(backend, overlay.Total(), k, None);
        overlay.SetStorage(k, None);
        RemovedOneMore(old(View()), gone, k);
        rest, gone := rest - {k}, gone + {k};
      }
      assert gone == WithPrefix(backend.Keys, prefix);
    }

    method StorageRoot() returns (hash: H256)
      requires Valid()
      modifies this
      ensures Valid() && transaction.Some? && hash == root(View())
    {
      if transaction.Some? {
        return transaction.value.1;
      }
      var first := Entries(overlay.committed);
      var second := Entries(overlay.prospective);
      NetConcat(first, second);
      var pairs := PairsWith(backend, first + second);
      hash := root(pairs);
      transaction := Some((first + second, hash));
    }

    method TakeTransaction() returns (tx: Transaction)
      requires Valid()
      modifies this
      ensures Valid() && Net(tx) == overlay.Total()
    {
      var _ := StorageRoot();
      tx := transaction.value.0;
    }

    /** Run a program against these externalities. */
    method Perform(p: Program, steps: nat) returns (r: Result<Bytes, Failure>)
      requires Valid()
      modifies this, overlay`prospective
      ensures Valid() && (View(), r) == Run(old(View()), backend.Keys, root, p, [], steps)
    {
      var answers: seq<Answer>, n: nat := [], steps;
      while n > 0
        invariant Valid()
        invariant Run(View(), backend.Keys, root, p, answers, n) == Run(old(View()), backend.Keys, root, p, [], steps)
      {
        match p(answers) {
          case Read(k) =>
            var v := Storage(k);
            answers := answers + [Found(v)];
          case Place(k, v) =>
            PlaceStorage(k, v);
            answers := answers + [Done];
          case ClearPrefix(x) =>
            ClearPrefix(x);
            answers := answers + [Done];
          case AskRoot =>
            var h := StorageRoot();
            answers := answers + [RootIs(h)];
          case Finish(result) =>
            return result;
        }
        n := n - 1;
      }
      r := Err(OutOfSteps);
    }
  }

  // ---------- Calls ----------

  method Execute(backend: Store, root: Store -> H256, overlay: OverlayedChanges, call: Call) returns (r: Result<(Bytes, Transaction), Failure>)
    modifies overlay
    ensures var before := Patched(backend, old(overlay.Total()));
            var (after, out) := Executed(before, backend.Keys, root, call);
            && (r.Ok? <==> out.Ok?) && (r.Err? ==> r.error == out.error)
            && (r.Ok? ==> r.value.0 == out.value && overlay.prospective == map[] && Patched(backend, overlay.committed) == after
                          && Patched(backend, Net(r.value.1)) == after)
            && (r.Err? ==> overlay.committed == old(overlay.committed) && overlay.prospective == if CODE in before then map[] else old(overlay.prospective))
  {
    var ext := new Ext(overlay, backend, root);
    var code := ext.Storage(CODE);
    if code.None? {
      return Err(CodeEntryDoesNotExist);
    }
    var result := ext.Perform(call.exec(code.value), call.steps);
    match result {
      case Ok(out) =>
        var tx := ext.TakeTransaction();
        overlay.CommitProspective();
        r := Ok((out, tx));
      case Err(e) =>
        overlay.DiscardProspective();
        r := Err(e);
    }
  }

  /** The `n`th call succeeded with a transaction that brings the backend to the flat store after
      it, or failed without one. */
  ghost predicate Brings(backend: Store, root: Store -> H256, calls: seq<Call>, n: nat, result: Result<Bytes, Failure>, tx: Option<Transaction>)
    requires n < |calls|
  {
    && (result.Ok? <==> tx.Some?)
    && (tx.Some? ==> Patched(backend, Net(tx.value)) == AllExecuted(backend, backend.Keys, root, calls[..n + 1]).0)
  }

  ghost predicate AllBring(backend: Store, root: Store -> H256, calls: seq<Call>, results: seq<Result<Bytes, Failure>>, txs: seq<Option<Transaction>>) {
    && |results| == |txs| <= |calls|
    && forall n :: 0 <= n < |txs| ==> Brings(backend, root, calls, n, results[n], txs[n])
  }

  lemma OneMoreBrings(backend: Store, root: Store -> H256, calls: seq<Call>, results: seq<Result<Bytes, Failure>>, txs: seq<Option<Transaction>>,
                      result: Result<Bytes, Failure>, tx: Option<Transaction>)
    requires AllBring(backend, root, calls, results, txs) && |txs| < |calls|
    requires Brings(backend, root, calls, |txs|, result, tx)
    ensures AllBring(backend, root, calls, results + [result], txs + [tx])
  {
    forall n | 0 <= n < |txs| + 1 ensures Brings(backend, root, calls, n, (results + [result])[n], (txs + [tx])[n]) {
      if n < |txs| {
        assert Brings(backend, root, calls, n, results[n], txs[n]);
      }
    }
  }

  lemma AllExecutedNext(view: Store, stored: set<Key>, root: Store -> H256, calls: seq<Call>, i: nat)
    requires i < |calls|
    ensures var (v, rs) := AllExecuted(view, stored, root, calls[..i]);
            var (after, r) := Executed(v, stored, root, calls[i]);
            AllExecuted(view, stored, root, calls[..i + 1]) == (after, rs + [r])
  {
    assert calls[..i + 1][..i] == calls[..i];
  }

  /** A call between others: its changes are committed or dropped. */
  method ExecuteNext(backend: Store, root: Store -> H256, overlay: OverlayedChanges, call: Call)
    returns (result: Result<Bytes, Failure>, tx: Option<Transaction>)
    requires overlay.prospective == map[]
    modifies overlay
    ensures overlay.prospective == map[]
    ensures (Patched(backend, overlay.committed), result) == Executed(Patched(backend, old(overlay.committed)), backend.Keys, root, call)
    ensures result.Ok? <==> tx.Some?
    ensures tx.Some? ==> Patched(backend, Net(tx.value)) == Patched(backend, overlay.committed)
  {
    assert overlay.Total() == overlay.committed;
    var r := Execute(backend, root, overlay, call);
    result := if r.Ok? then Ok(r.value.0) else Err(r.error);
    tx := if r.Ok? then Some(r.value.1) else None;
  }

  /** Any sequence of calls from an empty overlay: reads, results and failures are those of one
      flat store to which only the successful calls were applied, and the transaction of each
      successful call alone brings the backend to that store. */
  method ExecuteAll(backend: Store, root: Store -> H256, calls: seq<Call>)
    returns (overlay: OverlayedChanges, results: seq<Result<Bytes, Failure>>, txs: seq<Option<Transaction>>)
    ensures fresh(overlay) && overlay.prospective == map[]
    ensures (Patched(backend, overlay.committed), results) == AllExecuted(backend, backend.Keys, root, calls)
    ensures |txs| == |calls| && AllBring(backend, root, calls, results, txs)
  {
    overlay := new OverlayedChanges();
    results, txs := [], [];
    assert Patched(backend, map[]) == backend;
    for i := 0 to |calls|
      invariant fresh(overlay) && overlay.prospective == map[]
      invariant (Patched(backend, overlay.committed), results) == AllExecuted(backend, backend.Keys, root, calls[..i])
      invariant |txs| == i && AllBring(backend, root, calls, results, txs)
    {
      AllExecutedNext(backend, backend.Keys, root, calls, i);
      var result, tx := ExecuteNext(backend, root, overlay, calls[i]);
      OneMoreBrings(backend, root, calls, results, txs, result, tx);
      results, txs := results + [result], txs + [tx];
    }
    assert calls[..|calls|] == calls;
  }
}
