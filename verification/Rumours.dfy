/** Gossip of agreement messages: which messages are retained, and which peers know them. */
module Rumours {
  import opened Tallies

  type PeerId = nat
  type Hash(==, !new)
  type Message(==, !new)

  const MESSAGE_LIFETIME: nat := 600

  datatype Entry = Entry(hash: Hash, timestamp: nat, message: Message)

  /** A message that reached a peer: it was sent to the peer, or it came from it. */
  datatype Contact = Contact(peer: PeerId, hash: Hash)

  /** The contents of a Consensus object: the peers with what each is known to know, the retained
      messages, and their hashes. */
  datatype Node = Node(peers: map<PeerId, set<Hash>>, messages: seq<Entry>, hashes: set<Hash>)

  const START: Node := Node(map[], [], {})

  function HashOf(e: Entry): Hash { e.hash }
  function Itself(c: Contact): Contact { c }

  // ---------- What holds ----------

  /** The retained messages have distinct hashes, which are exactly the known ones, and every
      peer knows exactly these. */
  ghost predicate Consistent(n: Node) {
    && (forall h :: Tally(HashOf, n.messages, h) == if h in n.hashes then 1 else 0)
    && (forall p :: p in n.peers ==> n.peers[p] == n.hashes)
  }

  /** Every retained message has reached every connected peer exactly once since the peer
      connected and the message was retained. */
  ghost predicate ReachedOnce(n: Node, contacts: seq<Contact>) {
    forall p: PeerId, h :: Tally(Itself, contacts, Contact(p, h)) == if p in n.peers && h in n.hashes then 1 else 0
  }

  ghost predicate Valid(n: Node, contacts: seq<Contact>) {
    Consistent(n) && ReachedOnce(n, contacts)
  }

  // ---------- Contacts that count ----------

  /** The contacts with a property. */
  function Only(keep: Contact -> bool, contacts: seq<Contact>): seq<Contact> {
    if contacts == [] then []
    else
      var rest := Only(keep, contacts[..|contacts| - 1]);
      if keep(contacts[|contacts| - 1]) then rest + [contacts[|contacts| - 1]] else rest
  }

  lemma {:induction false} OnlyTally(keep: Contact -> bool, contacts: seq<Contact>, c: Contact)
    ensures Tally(Itself, Only(keep, contacts), c) == if keep(c) then Tally(Itself, contacts, c) else 0
  {
    if contacts != [] {
      var init, last := contacts[..|contacts| - 1], contacts[|contacts| - 1];
      OnlyTally(keep, init, c);
      TallySnoc(Itself, Only(keep, init), last, c);
    }
  }

  // ---------- A new peer ----------

  function Greetings(peer: PeerId, messages: seq<Entry>): seq<Contact> {
    if messages == [] then [] else Greetings(peer, messages[..|messages| - 1]) + [Contact(peer, messages[|messages| - 1].hash)]
  }

  lemma {:induction false} GreetingsTally(peer: PeerId, messages: seq<Entry>, p: PeerId, h: Hash)
    ensures Tally(Itself, Greetings(peer, messages), Contact(p, h)) == if p == peer then Tally(HashOf, messages, h) else 0
  {
    if messages != [] {
      var init := messages[..|messages| - 1];
      GreetingsTally(peer, init, p, h);
      TallySnoc(Itself, Greetings(peer, init), Contact(peer, messages[|messages| - 1].hash), Contact(p, h));
    }
  }

  lemma GreetingKeeps(n: Node, contacts: seq<Contact>, peer: PeerId)
    requires Valid(n, contacts) && peer !in n.peers
    ensures Valid(n.(peers := n.peers[peer := n.hashes]), contacts + Greetings(peer, n.messages))
  {
    var n', contacts' := n.(peers := n.peers[peer := n.hashes]), contacts + Greetings(peer, n.messages);
    forall p: PeerId, h ensures Tally(Itself, contacts', Contact(p, h)) == if p in n'.peers && h in n'.hashes then 1 else 0 {
      TallyConcat(Itself, contacts, Greetings(peer, n.messages), Contact(p, h));
      GreetingsTally(peer, n.messages, p, h);
    }
  }

  lemma {:induction false} HashesOfMessages(messages: seq<Entry>, hashes: set<Hash>)
    requires forall h :: Tally(HashOf, messages, h) == if h in hashes then 1 else 0
    ensures (set e | e in messages :: e.hash) == hashes
  {
    forall h ensures h in (set e | e in messages :: e.hash) <==> h in hashes {
      TallyHas(HashOf, messages, h);
      if h in hashes {
        var i :| 0 <= i < |messages| && HashOf(messages[i]) == h;
        assert messages[i] in messages;
      }
    }
  }

  // ---------- A new message ----------

  ghost function Retained(n: Node, e: Entry): Node {
    Node(map p | p in n.peers :: n.hashes + {e.hash}, n.messages + [e], n.hashes + {e.hash})
  }

  /** Every connected peer is in contact with the message once more. */
  ghost predicate Tells(n: Node, h: Hash, contacts: seq<Contact>, contacts': seq<Contact>) {
    forall p: PeerId, x :: Tally(Itself, contacts', Contact(p, x)) == Tally(Itself, contacts, Contact(p, x)) + if p in n.peers && x == h then 1 else 0
  }

  lemma RetainedKeeps(n: Node, contacts: seq<Contact>, e: Entry, contacts': seq<Contact>)
    requires Valid(n, contacts) && e.hash !in n.hashes && Tells(n, e.hash, contacts, contacts')
    ensures Valid(Retained(n, e), contacts')
  {
    forall h ensures Tally(HashOf, n.messages + [e], h) == if h in n.hashes + {e.hash} then 1 else 0 {
      TallySnoc(HashOf, n.messages, e, h);
    }
  }

  // ---------- Leaving and forgetting ----------

  lemma DepartureKeeps(n: Node, contacts: seq<Contact>, peer: PeerId)
    requires Valid(n, contacts)
    ensures Valid(n.(peers := n.peers - {peer}), Only((c: Contact) => c.peer != peer, contacts))
  {
    var n' := n.(peers := n.peers - {peer});
    forall p: PeerId, h
      ensures Tally(Itself, Only((c: Contact) => c.peer != peer, contacts), Contact(p, h)) == if p in n'.peers && h in n'.hashes then 1 else 0 {
      OnlyTally((c: Contact) => c.peer != peer, contacts, Contact(p, h));
    }
  }

  function Kept(keep: Entry -> bool, messages: seq<Entry>): seq<Entry> {
    if messages == [] then []
    else
      var rest := Kept(keep, messages[..|messages| - 1]);
      if keep(messages[|messages| - 1]) then rest + [messages[|messages| - 1]] else rest
  }

  /** `s` is `t` with some elements left out; `places` says where the others stood. */
  ghost predicate PlacedIn<T>(s: seq<T>, t: seq<T>, places: seq<int>) {
    && |places| == |s| && (forall i, j :: 0 <= i < j < |places| ==> places[i] < places[j])
    && forall i :: 0 <= i < |s| ==> 0 <= places[i] < |t| && s[i] == t[places[i]]
  }

  /** What is kept are the entries that meet the condition, and no others. */
  lemma {:induction false} KeptMembers(keep: Entry -> bool, messages: seq<Entry>, e: Entry)
    ensures e in Kept(keep, messages) <==> e in messages && keep(e)
  {
    if messages != [] {
      var init, last := messages[..|messages| - 1], messages[|messages| - 1];
      KeptMembers(keep, init, e);
      assert messages == init + [last];
    }
  }

  /** They keep their order. */
  lemma {:induction false} KeptOrder(keep: Entry -> bool, messages: seq<Entry>) returns (places: seq<int>)
    ensures PlacedIn(Kept(keep, messages), messages, places)
  {
    if messages == [] {
      places := [];
    } else {
      var init, last := messages[..|messages| - 1], messages[|messages| - 1];
      var before := KeptOrder(keep, init);
      places := if keep(last) then before + [|init|] else before;
      PlacedNext(Kept(keep, init), init, before, last);
      assert messages == init + [last];
    }
  }

  lemma PlacedNext<T>(s: seq<T>, t: seq<T>, places: seq<int>, x: T)
    requires PlacedIn(s, t, places)
    ensures PlacedIn(s, t + [x], places) && PlacedIn(s + [x], t + [x], places + [|t|])
  {
    assert forall i :: 0 <= i < |t| ==> (t + [x])[i] == t[i];
  }

  /** What a sweep leaves: the messages of the last 600 seconds that belong to no decided block, in
      order. */
  ghost predicate Swept(before: seq<Entry>, after: seq<Entry>, now: nat, decided: Message -> bool) {
    && (forall e :: SweptAt(before, after, now, decided, e))
    && exists places :: PlacedIn(after, before, places)
  }

  ghost predicate SweptAt(before: seq<Entry>, after: seq<Entry>, now: nat, decided: Message -> bool, e: Entry) {
    e in after <==> e in before && e.timestamp + 600 >= now && !decided(e.message)
  }

  lemma KeptIsSwept(keep: Entry -> bool, messages: seq<Entry>, now: nat, decided: Message -> bool)
    requires forall e :: keep(e) <==> e.timestamp + 600 >= now && !decided(e.message)
    ensures Swept(messages, Kept(keep, messages), now, decided)
  {
    forall e ensures SweptAt(messages, Kept(keep, messages), now, decided, e) {
      KeptMembers(keep, messages, e);
    }
    var places := KeptOrder(keep, messages);
  }

  /** Forget messages: their hashes go, and no others. */
  method Retain(messages: seq<Entry>, hashes: set<Hash>, keep: Entry -> bool) returns (kept: seq<Entry>, left: set<Hash>)
    requires forall h :: Tally(HashOf, messages, h) == if h in hashes then 1 else 0
    ensures kept == Kept(keep, messages) && left <= hashes
    ensures forall h :: Tally(HashOf, kept, h) == if h in left then 1 else 0
  {
    kept, left := [], hashes;
    assert messages[0..] == messages;
    for i := 0 to |messages|
      invariant kept == Kept(keep, messages[..i]) && left <= hashes
      invariant forall h :: Tally(HashOf, kept, h) + Tally(HashOf, messages[i..], h) == if h in left then 1 else 0
    {
      var e := messages[i];
      assert messages[..i + 1][..i] == messages[..i] && messages[i..] == [e] + messages[i + 1..];
      forall h ensures Tally(HashOf, messages[i..], h) == Tally(HashOf, messages[i + 1..], h) + if e.hash == h then 1 else 0
               ensures Tally(HashOf, kept + [e], h) == Tally(HashOf, kept, h) + if e.hash == h then 1 else 0 {
        TallyCons(HashOf, e, messages[i + 1..], h);
        TallySnoc(HashOf, kept, e, h);
      }
      if keep(e) {
        kept := kept + [e];
      } else {
        left := left - {e.hash};
      }
    }
    assert messages[..|messages|] == messages;
  }

  /** Retain the messages that are not too old and belong to no decided block. */
  method Sweep(messages: seq<Entry>, hashes: set<Hash>, now: nat, decided: Message -> bool) returns (kept: seq<Entry>, left: set<Hash>)
    requires forall h :: Tally(HashOf, messages, h) == if h in hashes then 1 else 0
    ensures Swept(messages, kept, now, decided) && left <= hashes
    ensures forall h :: Tally(HashOf, kept, h) == if h in left then 1 else 0
  {
    var keep := (e: Entry) => e.timestamp + MESSAGE_LIFETIME >= now && !decided(e.message);
    kept, left := Retain(messages, hashes, keep);
    KeptIsSwept(keep, messages, now, decided);
  }

  function Among(hashes: set<Hash>): Contact -> bool {
    (c: Contact) => c.hash in hashes
  }

  lemma ForgettingKeeps(n: Node, contacts: seq<Contact>, n': Node)
    requires Valid(n, contacts) && n'.hashes <= n.hashes && n'.peers.Keys == n.peers.Keys
    requires forall h :: Tally(HashOf, n'.messages, h) == if h in n'.hashes then 1 else 0
    requires forall p :: p in n.peers ==> n'.peers[p] == n.peers[p] * n'.hashes
    ensures Valid(n', Only(Among(n'.hashes), contacts))
  {
    var still := Among(n'.hashes);
    forall p: PeerId, h ensures Tally(Itself, Only(still, contacts), Contact(p, h)) == if p in n'.peers && h in n'.hashes then 1 else 0 {
      OnlyTally(still, contacts, Contact(p, h));
    }
    forall p | p in n'.peers ensures n'.peers[p] == n'.hashes {
      assert n.hashes * n'.hashes == n'.hashes;
    }
  }

  // ---------- The object ----------

  /** The sends so far: once to each peer of `done` that did not know the message. */
  ghost predicate SentTo(peers: map<PeerId, set<Hash>>, done: set<PeerId>, hash: Hash, out: seq<Contact>) {
    forall p: PeerId, h :: Tally(Itself, out, Contact(p, h)) == if p in peers && p in done && hash !in peers[p] && h == hash then 1 else 0
  }

  lemma SentNext(peers: map<PeerId, set<Hash>>, done: set<PeerId>, hash: Hash, out: seq<Contact>, p: PeerId)
    requires p in peers && p !in done && SentTo(peers, done, hash, out)
    ensures SentTo(peers, done + {p}, hash, if hash in peers[p] then out else out + [Contact(p, hash)])
  {
    forall q: PeerId, h ensures Tally(Itself, out + [Contact(p, hash)], Contact(q, h)) == Tally(Itself, out, Contact(q, h)) + if q == p && h == hash then 1 else 0 {
      TallySnoc(Itself, out, Contact(p, hash), Contact(q, h));
    }
  }

  /** Note that a peer knows a message, and send it if that is news. */
  method TellOne(peers: map<PeerId, set<Hash>>, out: seq<Contact>, p: PeerId, hash: Hash, ghost was: map<PeerId, set<Hash>>, ghost done: set<PeerId>)
    returns (peers': map<PeerId, set<Hash>>, out': seq<Contact>)
    requires p in was && p !in done && Told(was, done, hash, peers) && SentTo(was, done, hash, out)
    ensures Told(was, done + {p}, hash, peers') && SentTo(was, done + {p}, hash, out')
  {
    SentNext(was, done, hash, out, p);
    ToldNext(was, done, hash, peers, p);
    peers' := peers[p := peers[p] + {hash}];
    out' := if hash in peers[p] then out else out + [Contact(p, hash)];
  }

  /** Send a message to every peer that does not know it, in any order. */
  method Propagate(peers: map<PeerId, set<Hash>>, hash: Hash) returns (peers': map<PeerId, set<Hash>>, out: seq<Contact>)
    ensures peers' == map p | p in peers :: peers[p] + {hash}
    ensures SentTo(peers, peers.Keys, hash, out)
  {
    peers', out := peers, [];
    var rest := peers.Keys;
    ghost var done := {};
    while rest != {}
      invariant done !! rest && done + rest == peers.Keys && SentTo(peers, done, hash, out)
      invariant Told(peers, done, hash, peers')
      decreases |rest|
    {
      var p :| p in rest;
      peers', out := TellOne(peers', out, p, hash, peers, done);
      MoveOne(rest, done, p);
      rest, done := rest - {p}, done + {p};
    }
    assert done == peers.Keys;
  }

  lemma MoveOne<T>(rest: set<T>, done: set<T>, x: T)
    requires x in rest && done !! rest
    ensures (done + {x}) !! (rest - {x}) && (done + {x}) + (rest - {x}) == done + rest
  {
  }

  ghost predicate Told(peers: map<PeerId, set<Hash>>, done: set<PeerId>, hash: Hash, peers': map<PeerId, set<Hash>>) {
    peers'.Keys == peers.Keys && forall p :: p in peers ==> peers'[p] == if p in done then peers[p] + {hash} else peers[p]
  }

  lemma ToldNext(peers: map<PeerId, set<Hash>>, done: set<PeerId>, hash: Hash, peers': map<PeerId, set<Hash>>, p: PeerId)
    requires Told(peers, done, hash, peers') && p in peers && p !in done
    ensures peers'[p] == peers[p] && Told(peers, done + {p}, hash, peers'[p := peers'[p] + {hash}])
  {
  }

  class Consensus {
    var peers: map<PeerId, set<Hash>>
    var messages: seq<Entry>
    var hashes: set<Hash>
    /** Which retained message reached which connected peer. */
    ghost var contacts: seq<Contact>

    ghost function State(): Node
      reads this
    {
      Node(peers, messages, hashes)
    }

    ghost predicate Ok()
      reads this
    {
      Valid(State(), contacts)
    }

    constructor ()
      ensures Ok() && State() == START
    {
      peers, messages, hashes, contacts := map[], [], {}, [];
    }

    /** A validator connects and is sent every retained message; if it was connected before, its
        record starts anew. */
    method NewPeer(peer: PeerId, validator: bool) returns (out: seq<Contact>)
      requires Ok()
      modifies this`peers, this`contacts
      ensures Ok() && out == (if validator then Greetings(peer, messages) else [])
      ensures peers == if validator then old(peers)[peer := hashes] else old(peers)
    {
      out := [];
      if validator {
        var known := {};
        for i := 0 to |messages|
          invariant known == set e | e in messages[..i] :: e.hash
          invariant out == Greetings(peer, messages[..i])
        {
          assert messages[..i + 1] == messages[..i] + [messages[i]];
          known := known + {messages[i].hash};
          out := out + [Contact(peer, messages[i].hash)];
        }
        assert messages[..|messages|] == messages;
        HashesOfMessages(messages, hashes);
        ghost var others := Only((c: Contact) => c.peer != peer, contacts);
        DepartureKeeps(State(), contacts, peer);
        GreetingKeeps(State().(peers := peers - {peer}), others, peer);
        assert (peers - {peer})[peer := hashes] == peers[peer := hashes];
        peers := peers[peer := known];
        contacts := others + out;
      }
    }

    /** A message from a peer. `current` is the chain's word on whether it matters still. */
    method OnMessage(peer: PeerId, message: Message, hash: Hash, current: bool, now: nat) returns (out: seq<Contact>)
      requires Ok()
      modifies this
      ensures Ok()
      ensures var taken := hash !in old(hashes) && current && peer in old(peers);
              && hashes == old(hashes) + (if taken then {hash} else {})
              && messages == old(messages) + (if taken then [Entry(hash, now, message)] else [])
              && forall p: PeerId, h :: Tally(Itself, out, Contact(p, h)) == if taken && p in old(peers) && p != peer && h == hash then 1 else 0
    {
      out := [];
      if hash in hashes || !current || peer !in peers {
        return;
      }
      ghost var n, before := State(), contacts;
      var known := peers[peer := peers[peer] + {hash}];
      hashes := hashes + {hash};
      messages := messages + [Entry(hash, now, message)];
      peers, out := Propagate(known, hash);
      contacts := contacts + [Contact(peer, hash)] + out;
      assert peers == Retained(n, Entry(hash, now, message)).peers;
      assert Tells(n, hash, before, contacts) by {
        forall p: PeerId, h ensures Tally(Itself, contacts, Contact(p, h)) == Tally(Itself, before, Contact(p, h)) + if p in n.peers && h == hash then 1 else 0 {
          TallyConcat(Itself, before + [Contact(peer, hash)], out, Contact(p, h));
          TallySnoc(Itself, before, Contact(peer, hash), Contact(p, h));
        }
      }
      RetainedKeeps(n, before, Entry(hash, now, message), contacts);
    }

    /** A message of our own. */
    method Send(message: Message, hash: Hash, now: nat) returns (out: seq<Contact>)
      requires Ok()
      modifies this
      ensures Ok()
      ensures var fresh' := hash !in old(hashes);
              && hashes == old(hashes) + {hash}
              && messages == old(messages) + (if fresh' then [Entry(hash, now, message)] else [])
              && forall p: PeerId, h :: Tally(Itself, out, Contact(p, h)) == if fresh' && p in old(peers) && h == hash then 1 else 0
    {
      ghost var n, before := State(), contacts;
      ghost var fresh' := hash !in hashes;
      if hash !in hashes {
        hashes := hashes + {hash};
        messages := messages + [Entry(hash, now, message)];
      }
      peers, out := Propagate(peers, hash);
      contacts := contacts + out;
      assert Tells(n, hash, before, contacts) || !fresh' by {
        forall p: PeerId, h ensures Tally(Itself, contacts, Contact(p, h)) == Tally(Itself, before, Contact(p, h)) + Tally(Itself, out, Contact(p, h)) {
          TallyConcat(Itself, before, out, Contact(p, h));
        }
      }
      if fresh' {
        assert peers == Retained(n, Entry(hash, now, message)).peers;
        RetainedKeeps(n, before, Entry(hash, now, message), contacts);
      } else {
        forall p | p in n.peers ensures n.peers[p] + {hash} == n.peers[p] {
          assert hash in n.peers[p];
        }
        assert peers == n.peers;
        forall p: PeerId, h ensures Tally(Itself, contacts, Contact(p, h)) == Tally(Itself, before, Contact(p, h)) {
          TallyConcat(Itself, before, out, Contact(p, h));
        }
      }
    }

    method PeerDisconnected(peer: PeerId)
      requires Ok()
      modifies this`peers, this`contacts
      ensures Ok() && peers == old(peers) - {peer}
    {
      DepartureKeeps(State(), contacts, peer);
      peers := peers - {peer};
      contacts := Only((c: Contact) => c.peer != peer, contacts);
    }

    /** Forget messages that are too old or belong to a decided block. */
    method CollectGarbage(now: nat, decided: Message -> bool)
      requires Ok()
      modifies this
      ensures Ok()
      ensures Swept(old(messages), messages, now, decided)
      ensures peers.Keys == old(peers).Keys
    {
      ghost var n, before := State(), contacts;
      var kept, left := Sweep(messages, hashes, now, decided);
      messages, hashes := kept, left;
      peers := map p | p in peers :: peers[p] * left;
      contacts := Only(Among(left), contacts);
      ForgettingKeeps(n, before, State());
    }
  }
}
