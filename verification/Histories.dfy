/** What a program was told, from the history of what it did: reads give the last write, and the
    root is that of the store as it was then. */
module Histories {
  import opened Primitives
  import opened Changes
  import opened StateMachine

  datatype Deed = Deed(action: Action, answer: Answer)

  function AnswersOf(history: seq<Deed>): (r: seq<Answer>)
    ensures |r| == |history| && forall i :: 0 <= i < |r| ==> r[i] == history[i].answer
  {
    seq(|history|, i requires 0 <= i < |history| => history[i].answer)
  }

  /** The value of a key after some deeds: the last write to it, unless its prefix was cleared since
      and the backend has the key; without a write, what was there at first. */
  ghost function ValueAfter(view: Store, stored: set<Key>, history: seq<Deed>, k: Key): Option<Value> {
    if history == [] then (if k in view then Some(view[k]) else None)
    else
      var init, last := history[..|history| - 1], history[|history| - 1].action;
      match last
      case Place(key, value) => if key == k then value else ValueAfter(view, stored, init, k)
      case ClearPrefix(x) => if x <= k && k in stored then None else ValueAfter(view, stored, init, k)
      case _ => ValueAfter(view, stored, init, k)
  }

  /** A store with these values. */
  ghost predicate IsStoreAfter(view: Store, stored: set<Key>, history: seq<Deed>, s: Store) {
    forall k :: (if k in s then Some(s[k]) else None) == ValueAfter(view, stored, history, k)
  }

  /** The answer to an action, given what was done before it. */
  ghost predicate RightAnswer(view: Store, stored: set<Key>, root: Store -> H256, history: seq<Deed>, deed: Deed) {
    match deed.action
    case Read(k) => deed.answer == Found(ValueAfter(view, stored, history, k))
    case AskRoot => exists s :: IsStoreAfter(view, stored, history, s) && deed.answer == RootIs(root(s))
    case Finish(_) => false
    case _ => deed.answer == Done
  }

  /** The program does this, and is answered so. */
  ghost predicate Does(view: Store, stored: set<Key>, root: Store -> H256, p: Program, history: seq<Deed>) {
    forall i :: 0 <= i < |history| ==> DoesAt(view, stored, root, p, history, i)
  }

  ghost predicate DoesAt(view: Store, stored: set<Key>, root: Store -> H256, p: Program, history: seq<Deed>, i: nat)
    requires i < |history|
  {
    p(AnswersOf(history[..i])) == history[i].action && RightAnswer(view, stored, root, history[..i], history[i])
  }

  lemma DoesNext(view: Store, stored: set<Key>, root: Store -> H256, p: Program, history: seq<Deed>, deed: Deed)
    requires Does(view, stored, root, p, history)
    requires p(AnswersOf(history)) == deed.action && RightAnswer(view, stored, root, history, deed)
    ensures Does(view, stored, root, p, history + [deed])
    ensures AnswersOf(history + [deed]) == AnswersOf(history) + [deed.answer]
  {
    var longer := history + [deed];
    forall i | 0 <= i < |longer| ensures DoesAt(view, stored, root, p, longer, i) {
      assert longer[..i] == history[..i];
      if i < |history| {
        assert DoesAt(view, stored, root, p, history, i);
      } else {
        assert history[..i] == history;
      }
    }
  }

  lemma StoreNext(view: Store, stored: set<Key>, history: seq<Deed>, now: Store, deed: Deed)
    requires IsStoreAfter(view, stored, history, now)
    ensures deed.action.Place? ==> IsStoreAfter(view, stored, history + [deed], Placed(now, deed.action.key, deed.action.value))
    ensures deed.action.ClearPrefix? ==> IsStoreAfter(view, stored, history + [deed], Cleared(now, stored, deed.action.prefix))
    ensures !deed.action.Place? && !deed.action.ClearPrefix? ==> IsStoreAfter(view, stored, history + [deed], now)
  {
    assert (history + [deed])[..|history|] == history;
    forall k ensures ValueAfter(view, stored, history, k) == if k in now then Some(now[k]) else None {
    }
  }

  /** Every run of a program has a history: the answers are right, the store holds the last writes,
      and the result is what the program finished with, unless it ran out of steps. */
  ghost predicate Tells(view: Store, stored: set<Key>, root: Store -> H256, p: Program, steps: nat, history: seq<Deed>, after: Store, r: Result<Bytes, Failure>) {
    && Does(view, stored, root, p, history) && IsStoreAfter(view, stored, history, after) && |history| <= steps
    && if |history| == steps then r == Err(OutOfSteps) else p(AnswersOf(history)) == Finish(r)
  }

  ghost function AnswerFrom(now: Store, root: Store -> H256, action: Action): Answer {
    match action
    case Read(k) => Found(Lookup(now, k))
    case AskRoot => RootIs(root(now))
    case _ => Done
  }

  lemma {:induction false} RunHasHistory(view: Store, stored: set<Key>, root: Store -> H256, p: Program, history: seq<Deed>, now: Store, steps: nat)
    returns (whole: seq<Deed>)
    requires Does(view, stored, root, p, history) && IsStoreAfter(view, stored, history, now)
    ensures var (after, r) := Run(now, stored, root, p, AnswersOf(history), steps);
            Tells(view, stored, root, p, |history| + steps, whole, after, r)
    decreases steps
  {
    whole := history;
    if steps > 0 && !p(AnswersOf(history)).Finish? {
      var action := p(AnswersOf(history));
      var deed := Deed(action, AnswerFrom(now, root, action));
      var next := match action
        case Place(k, v) => Placed(now, k, v)
        case ClearPrefix(x) => Cleared(now, stored, x)
        case _ => now;
      AnswerIsRight(view, stored, root, history, now, deed);
      DoesNext(view, stored, root, p, history, deed);
      StoreNext(view, stored, history, now, deed);
      whole := RunHasHistory(view, stored, root, p, history + [deed], next, steps - 1);
    }
  }

  lemma AnswerIsRight(view: Store, stored: set<Key>, root: Store -> H256, history: seq<Deed>, now: Store, deed: Deed)
    requires IsStoreAfter(view, stored, history, now) && !deed.action.Finish?
    requires deed.answer == AnswerFrom(now, root, deed.action)
    ensures RightAnswer(view, stored, root, history, deed)
  {
    if deed.action.Read? {
      assert ValueAfter(view, stored, history, deed.action.key) == if deed.action.key in now then Some(now[deed.action.key]) else None;
    }
  }

  /** Every run on the flat store is told by a history. */
  lemma EveryRunIsTold(view: Store, stored: set<Key>, root: Store -> H256, p: Program, steps: nat) returns (history: seq<Deed>)
    ensures var (after, r) := Run(view, stored, root, p, [], steps);
            Tells(view, stored, root, p, steps, history, after, r)
  {
    var none: seq<Deed> := [];
    assert AnswersOf(none) == [];
    history := RunHasHistory(view, stored, root, p, none, view, steps);
  }
}
