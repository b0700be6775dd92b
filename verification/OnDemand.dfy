/** Requests of a light node: waiting, sent to a peer, or answered. */
module OnDemand {
  import opened Primitives
  import opened Tallies

  type PeerId = nat
  /** What is asked, and the channel that waits for the answer. */
  type Data(==, !new)

  const REQUEST_TIMEOUT: nat := 15

  datatype Request = Request(id: nat, timestamp: nat, data: Data)

  /** The contents of an OnDemandCore object. `active` is in order of insertion. */
  datatype Core = Core(nextId: nat, pending: seq<Request>, active: seq<(PeerId, Request)>, idle: seq<PeerId>)

  const NOTHING: Core := Core(0, [], [], [])

  // ---------- Steps ----------

  function Find(active: seq<(PeerId, Request)>, peer: PeerId): (r: Option<nat>)
    ensures r.Some? ==> r.value < |active| && active[r.value].0 == peer
    ensures r.None? ==> forall i :: 0 <= i < |active| ==> active[i].0 != peer
  {
    if active == [] then None
    else if active[|active| - 1].0 == peer then Some(|active| - 1)
    else Find(active[..|active| - 1], peer)
  }

  function Without<T>(s: seq<T>, i: nat): seq<T>
    requires i < |s|
  {
    s[..i] + s[i + 1..]
  }

  /** Inserting into the linked map: a peer that is in it moves to the back. */
  function Put(active: seq<(PeerId, Request)>, peer: PeerId, request: Request): seq<(PeerId, Request)> {
    match Find(active, peer)
    case Some(i) => Without(active, i) + [(peer, request)]
    case None => active + [(peer, request)]
  }

  function AddPeer(c: Core, peer: PeerId): Core {
    c.(idle := c.idle + [peer])
  }

  function IndexOf(idle: seq<PeerId>, peer: PeerId): (r: Option<nat>)
    ensures r.Some? ==> r.value < |idle| && idle[r.value] == peer
    ensures r.None? ==> peer !in idle
  {
    if idle == [] then None
    else if idle[0] == peer then Some(0)
    else match IndexOf(idle[1..], peer) case Some(i) => Some(i + 1) case None => None
  }

  /** Remove an element and put the last one in its place. */
  function SwapRemove<T>(s: seq<T>, i: nat): seq<T>
    requires i < |s|
  {
    var last := |s| - 1;
    if i == last then s[..last] else s[..last][i := s[last]]
  }

  function RemovePeer(c: Core, peer: PeerId): Core {
    match Find(c.active, peer)
    case Some(i) => c.(active := Without(c.active, i), pending := [c.active[i].1] + c.pending)
    case None =>
      match IndexOf(c.idle, peer)
      case Some(i) => c.(idle := SwapRemove(c.idle, i))
      case None => c
  }

  predicate Expired(request: Request, now: nat) {
    now >= request.timestamp + REQUEST_TIMEOUT
  }

  /** Give up requests from the oldest on, and stop at the first that has not expired. */
  function Maintain(c: Core, now: nat): (Core, seq<PeerId>)
    decreases |c.active|
  {
    if c.active == [] || !Expired(c.active[0].1, now) then (c, [])
    else
      var (c', bad) := Maintain(c.(active := c.active[1..], pending := [c.active[0].1] + c.pending), now);
      (c', [c.active[0].0] + bad)
  }

  function Insert(c: Core, data: Data, now: nat): Core {
    c.(nextId := c.nextId + 1, pending := c.pending + [Request(c.nextId, now, data)])
  }

  function Remove(c: Core, peer: PeerId, id: nat): (Core, Option<Request>) {
    match Find(c.active, peer)
    case Some(i) =>
      if c.active[i].1.id == id then (c.(active := Without(c.active, i), idle := c.idle + [peer]), Some(c.active[i].1))
      else (c, None)
    case None => (c, None)
  }

  function Dispatch(c: Core, now: nat): Core
    decreases |c.pending|
  {
    if c.pending == [] || c.idle == [] then c
    else
      var sent := c.pending[0].(timestamp := now);
      Dispatch(c.(pending := c.pending[1..], idle := c.idle[1..], active := Put(c.active, c.idle[0], sent)), now)
  }

  // ---------- Events ----------

  /** Whether the checker accepts a peer's answer to a request. */
  datatype Event =
    | Connect(peer: PeerId, useful: bool)
    | Disconnect(peer: PeerId)
    | Maintenance
    | Schedule(data: Data)
    | Response(peer: PeerId, id: nat, good: bool)

  function DispatchIf(c: Core, alive: bool, now: nat): Core {
    if alive then Dispatch(c, now) else c
  }

  /** The state after an event, and what it delivered. `alive`: the network service exists. */
  function After(c: Core, e: Event, alive: bool, now: nat): (Core, Option<Data>) {
    match e
    case Connect(peer, useful) => (if useful then DispatchIf(AddPeer(c, peer), alive, now) else c, None)
    case Disconnect(peer) => (DispatchIf(RemovePeer(c, peer), alive, now), None)
    case Maintenance => (DispatchIf(Maintain(c, now).0, alive, now), None)
    case Schedule(data) => (DispatchIf(Insert(c, data, now), alive, now), None)
    case Response(peer, id, good) =>
      match Remove(c, peer, id)
      case (c', None) => (RemovePeer(c', peer), None)
      case (c', Some(request)) =>
        if good then (DispatchIf(c', alive, now), Some(request.data))
        else (DispatchIf(Insert(RemovePeer(c', peer), request.data, now), alive, now), None)
  }

  /** The peers that the node disconnects from in an event. */
  function Dropped(c: Core, e: Event, now: nat): seq<PeerId> {
    match e
    case Maintenance => Maintain(c, now).1
    case Response(peer, id, good) => if Remove(c, peer, id).1.Some? && good then [] else [peer]
    case _ => []
  }

  // ---------- What is kept ----------

  function IdOf(r: Request): nat { r.id }
  function DataOf(r: Request): Data { r.data }
  function PeerOf(p: (PeerId, Request)): PeerId { p.0 }
  function ActiveId(p: (PeerId, Request)): nat { p.1.id }
  function ActiveData(p: (PeerId, Request)): Data { p.1.data }
  function Self(p: PeerId): PeerId { p }

  /** How many requests carry an id. */
  ghost function Ids(c: Core, id: nat): nat {
    Tally(IdOf, c.pending, id) + Tally(ActiveId, c.active, id)
  }

  /** How many requests for some data wait for an answer. */
  ghost function Held(c: Core, data: Data): nat {
    Tally(DataOf, c.pending, data) + Tally(ActiveData, c.active, data)
  }

  /** How often a peer is listed. */
  ghost function Peers(c: Core, peer: PeerId): nat {
    Tally(Self, c.idle, peer) + Tally(PeerOf, c.active, peer)
  }

  /** No id and no peer occurs twice, and the active requests are in order of their time. */
  ghost predicate Valid(c: Core, clock: nat) {
    && (forall id: nat :: Ids(c, id) <= if id < c.nextId then 1 else 0)
    && (forall peer :: Peers(c, peer) <= 1)
    && Sorted(c.active, clock)
  }

  ghost predicate Sorted(active: seq<(PeerId, Request)>, clock: nat) {
    && (forall i, j :: 0 <= i < j < |active| ==> active[i].1.timestamp <= active[j].1.timestamp)
    && (forall i :: 0 <= i < |active| ==> active[i].1.timestamp <= clock)
  }

  /** Nobody waits while a peer is idle. */
  ghost predicate Settled(c: Core) {
    c.pending == [] || c.idle == []
  }

  // ---------- Single steps ----------

  /** The step moves requests about, but keeps them all. */
  ghost predicate KeepsRequests(c: Core, c': Core) {
    && c'.nextId == c.nextId
    && (forall id: nat :: Ids(c', id) == Ids(c, id))
    && (forall data :: Held(c', data) == Held(c, data))
  }

  ghost function Released(c: Core, i: nat): Core
    requires i < |c.active|
  {
    c.(active := Without(c.active, i), pending := [c.active[i].1] + c.pending)
  }

  lemma ReleaseKeeps(c: Core, i: nat)
    requires i < |c.active|
    ensures KeepsRequests(c, Released(c, i))
    ensures forall p :: Peers(c, p) == Peers(Released(c, i), p) + if c.active[i].0 == p then 1 else 0
  {
    var c' := Released(c, i);
    forall id: nat ensures Ids(c', id) == Ids(c, id) {
      TallyWithout(ActiveId, c.active, i, id);
      TallyCons(IdOf, c.active[i].1, c.pending, id);
    }
    forall data ensures Held(c', data) == Held(c, data) {
      TallyWithout(ActiveData, c.active, i, data);
      TallyCons(DataOf, c.active[i].1, c.pending, data);
    }
    forall p ensures Peers(c, p) == Peers(c', p) + if c.active[i].0 == p then 1 else 0 {
      TallyWithout(PeerOf, c.active, i, p);
    }
  }

  lemma SwapRemoveTally(s: seq<PeerId>, i: nat, p: PeerId)
    requires i < |s|
    ensures Tally(Self, s, p) == Tally(Self, SwapRemove(s, i), p) + if s[i] == p then 1 else 0
  {
    var last := |s| - 1;
    var init := s[..last];
    if i < last {
      var swapped := init[i := s[last]];
      TallyWithout(Self, init, i, p);
      TallyWithout(Self, swapped, i, p);
      assert swapped[..i] + swapped[i + 1..] == init[..i] + init[i + 1..];
    }
  }

  lemma RemovePeerKeeps(c: Core, peer: PeerId)
    ensures KeepsRequests(c, RemovePeer(c, peer))
    ensures forall p :: Peers(RemovePeer(c, peer), p) == Peers(c, p) - if p == peer && Peers(c, p) > 0 then 1 else 0
  {
    match Find(c.active, peer) {
      case Some(i) => ReleaseKeeps(c, i);
      case None =>
        TallyHas(PeerOf, c.active, peer);
        match IndexOf(c.idle, peer) {
          case Some(i) =>
            forall p {
              SwapRemoveTally(c.idle, i, p);
            }
          case None => TallyHas(Self, c.idle, peer);
        }
    }
  }

  lemma SortedWithout(active: seq<(PeerId, Request)>, i: nat, clock: nat)
    requires i < |active| && Sorted(active, clock)
    ensures Sorted(Without(active, i), clock)
  {
  }

  lemma RemovePeerIsValid(c: Core, peer: PeerId, clock: nat)
    requires Valid(c, clock)
    ensures Valid(RemovePeer(c, peer), clock)
  {
    RemovePeerKeeps(c, peer);
    match Find(c.active, peer) {
      case Some(i) => SortedWithout(c.active, i, clock);
      case None =>
    }
  }

  // ---------- Timeouts ----------

  /** Exactly the requests of 15 seconds ago or more are given up: because they are in order of their
      time, none hides behind the first that has not expired. */
  lemma {:induction false} MaintainFindsExpired(c: Core, now: nat)
    requires Sorted(c.active, now)
    ensures var (c', bad) := Maintain(c, now);
            && |bad| <= |c.active| && c'.active == c.active[|bad|..] && c'.idle == c.idle
            && (forall i :: 0 <= i < |bad| ==> bad[i] == c.active[i].0 && c.active[i].1.timestamp + 15 <= now)
            && (forall i :: |bad| <= i < |c.active| ==> now < c.active[i].1.timestamp + 15)
    decreases |c.active|
  {
    if c.active != [] && Expired(c.active[0].1, now) {
      var next := c.(active := c.active[1..], pending := [c.active[0].1] + c.pending);
      MaintainFindsExpired(next, now);
      var (c', bad) := Maintain(next, now);
      assert c.active[1..][|bad|..] == c.active[|bad| + 1..];
      forall i | 1 <= i < |c.active| ensures c.active[i] == next.active[i - 1] {
      }
    }
  }

  /** The requests given up wait in front of the others, the latest first. */
  lemma {:induction false} MaintainQueues(c: Core, now: nat)
    ensures var (c', bad) := Maintain(c, now);
            && |bad| <= |c.active| && |c'.pending| == |bad| + |c.pending| && c'.pending[|bad|..] == c.pending
            && (forall i :: 0 <= i < |bad| ==> c'.pending[|bad| - 1 - i] == c.active[i].1)
    decreases |c.active|
  {
    if c.active != [] && Expired(c.active[0].1, now) {
      var next := c.(active := c.active[1..], pending := [c.active[0].1] + c.pending);
      MaintainQueues(next, now);
      var (c', bad) := Maintain(next, now);
      assert c'.pending[|bad|] == c'.pending[|bad|..][0] == next.pending[0];
      assert c'.pending[|bad| + 1..] == c'.pending[|bad|..][1..] == c.pending;
      forall i | 0 < i < |bad| + 1 ensures c'.pending[|bad| - i] == c.active[i].1 {
        assert c'.pending[|bad| - 1 - (i - 1)] == next.active[i - 1].1;
      }
    }
  }

  lemma {:induction false} MaintainKeeps(c: Core, now: nat)
    ensures var c' := Maintain(c, now).0;
            KeepsRequests(c, c') && forall p :: Peers(c', p) <= Peers(c, p)
    decreases |c.active|
  {
    if c.active != [] && Expired(c.active[0].1, now) {
      assert c.active[..0] + c.active[0 + 1..] == c.active[1..];
      ReleaseKeeps(c, 0);
      MaintainKeeps(Released(c, 0), now);
    }
  }

  // ---------- Dispatching ----------

  ghost function Sent(c: Core, now: nat): Core
    requires c.pending != [] && c.idle != []
  {
    c.(pending := c.pending[1..], idle := c.idle[1..], active := Put(c.active, c.idle[0], c.pending[0].(timestamp := now)))
  }

  lemma SentKeeps(c: Core, now: nat)
    requires c.pending != [] && c.idle != [] && Peers(c, c.idle[0]) <= 1
    ensures KeepsRequests(c, Sent(c, now)) && forall p :: Peers(Sent(c, now), p) == Peers(c, p)
    ensures Sent(c, now).active == c.active + [(c.idle[0], c.pending[0].(timestamp := now))]
  {
    var c', entry := Sent(c, now), (c.idle[0], c.pending[0].(timestamp := now));
    TallyTail(Self, c.idle, c.idle[0]);
    TallyHas(PeerOf, c.active, c.idle[0]);
    assert Find(c.active, c.idle[0]).None?;
    forall id: nat ensures Ids(c', id) == Ids(c, id) {
      TallyTail(IdOf, c.pending, id);
      TallySnoc(ActiveId, c.active, entry, id);
    }
    forall data ensures Held(c', data) == Held(c, data) {
      TallyTail(DataOf, c.pending, data);
      TallySnoc(ActiveData, c.active, entry, data);
    }
    forall p ensures Peers(c', p) == Peers(c, p) {
      TallyTail(Self, c.idle, p);
      TallySnoc(PeerOf, c.active, entry, p);
    }
  }

  lemma SentIsValid(c: Core, now: nat)
    requires c.pending != [] && c.idle != [] && Valid(c, now)
    ensures Valid(Sent(c, now), now) && KeepsRequests(c, Sent(c, now)) && forall p :: Peers(Sent(c, now), p) == Peers(c, p)
  {
    SentKeeps(c, now);
  }

  lemma {:induction false} DispatchIsValid(c: Core, now: nat)
    requires Valid(c, now)
    ensures var c' := Dispatch(c, now);
            Valid(c', now) && Settled(c') && KeepsRequests(c, c') && forall p :: Peers(c', p) == Peers(c, p)
    decreases |c.pending|
  {
    if c.pending != [] && c.idle != [] {
      SentIsValid(c, now);
      DispatchIsValid(Sent(c, now), now);
    }
  }

  // ---------- Events ----------

  lemma LaterIsSorted(active: seq<(PeerId, Request)>, clock: nat, now: nat)
    requires Sorted(active, clock) && clock <= now
    ensures Sorted(active, now)
  {
  }

  lemma InsertKeeps(c: Core, data: Data, now: nat)
    requires Valid(c, now)
    ensures Valid(Insert(c, data, now), now)
    ensures forall d :: Held(Insert(c, data, now), d) == Held(c, d) + if d == data then 1 else 0
    ensures forall p :: Peers(Insert(c, data, now), p) == Peers(c, p)
  {
    var c', request := Insert(c, data, now), Request(c.nextId, now, data);
    forall id: nat ensures Ids(c', id) == Ids(c, id) + if id == c.nextId then 1 else 0 {
      TallySnoc(IdOf, c.pending, request, id);
    }
    forall d ensures Held(c', d) == Held(c, d) + if d == data then 1 else 0 {
      TallySnoc(DataOf, c.pending, request, d);
    }
    forall p ensures Peers(c', p) == Peers(c, p) {
    }
  }

  lemma RemoveKeeps(c: Core, peer: PeerId, id: nat, clock: nat)
    requires Valid(c, clock) && Remove(c, peer, id).1.Some?
    ensures var (c', r) := Remove(c, peer, id);
            && Valid(c', clock) && c'.nextId == c.nextId
            && (forall d :: Held(c, d) == Held(c', d) + if d == r.value.data then 1 else 0)
            && (forall p :: Peers(c', p) == Peers(c, p))
  {
    var (c', r) := Remove(c, peer, id);
    var i := Find(c.active, peer).value;
    SortedWithout(c.active, i, clock);
    forall n: nat ensures Ids(c', n) <= Ids(c, n) {
      TallyWithout(ActiveId, c.active, i, n);
    }
    forall d ensures Held(c, d) == Held(c', d) + if d == r.value.data then 1 else 0 {
      TallyWithout(ActiveData, c.active, i, d);
    }
    forall p ensures Peers(c', p) == Peers(c, p) {
      TallyWithout(PeerOf, c.active, i, p);
      TallySnoc(Self, c.idle, peer, p);
    }
  }

  ghost function Delivered(r: Option<Data>, d: Data): nat {
    if r == Some(d) then 1 else 0
  }

  /** A peer connects that is not connected. */
  ghost predicate FreshPeer(c: Core, e: Event) {
    e.Connect? && e.useful ==> Peers(c, e.peer) == 0
  }

  lemma DispatchIfKeeps(c: Core, alive: bool, now: nat)
    requires Valid(c, now)
    ensures var c' := DispatchIf(c, alive, now);
            Valid(c', now) && KeepsRequests(c, c') && (alive ==> Settled(c')) && forall p :: Peers(c', p) == Peers(c, p)
  {
    if alive {
      DispatchIsValid(c, now);
    }
  }

  lemma ConnectKeeps(c: Core, peer: PeerId, now: nat)
    requires Valid(c, now) && Peers(c, peer) == 0
    ensures Valid(AddPeer(c, peer), now) && KeepsRequests(c, AddPeer(c, peer))
  {
    var c' := AddPeer(c, peer);
    forall p ensures Peers(c', p) == Peers(c, p) + if p == peer then 1 else 0 {
      TallySnoc(Self, c.idle, peer, p);
    }
    forall id: nat ensures Ids(c', id) == Ids(c, id) {
    }
  }

  lemma MaintainIsValid(c: Core, now: nat)
    requires Valid(c, now)
    ensures Valid(Maintain(c, now).0, now) && KeepsRequests(c, Maintain(c, now).0)
  {
    MaintainKeeps(c, now);
    MaintainFindsExpired(c, now);
    var n := |Maintain(c, now).1|;
    assert Sorted(c.active[n..], now);
  }

  /** Every request is waiting, sent or delivered, and stays valid. */
  ghost predicate Conserves(c: Core, c': Core, added: Option<Data>, gone: Option<Data>) {
    forall d :: Held(c', d) + Delivered(gone, d) == Held(c, d) + Delivered(added, d)
  }

  lemma BadResponseKeeps(c: Core, peer: PeerId, id: nat, now: nat)
    requires Valid(c, now) && Remove(c, peer, id).1.Some?
    ensures var (c', r) := Remove(c, peer, id);
            var back := Insert(RemovePeer(c', peer), r.value.data, now);
            Valid(back, now) && Conserves(c, back, None, None)
  {
    RemoveKeeps(c, peer, id, now);
    var (c', r) := Remove(c, peer, id);
    RemovePeerIsValid(c', peer, now);
    RemovePeerKeeps(c', peer);
    InsertKeeps(RemovePeer(c', peer), r.value.data, now);
  }

  /** Whatever happens, ids and peers stay unique, times stay in order, and each scheduled
      request is waiting, sent or delivered. */
  lemma EventKeeps(c: Core, e: Event, alive: bool, clock: nat, now: nat)
    requires Valid(c, clock) && clock <= now && FreshPeer(c, e)
    ensures var (c', out) := After(c, e, alive, now);
            Valid(c', now) && Conserves(c, c', if e.Schedule? then Some(e.data) else None, out)
  {
    LaterIsSorted(c.active, clock, now);
    assert Valid(c, now);
    match e {
      case Connect(peer, useful) =>
        if useful {
          ConnectKeeps(c, peer, now);
          DispatchIfKeeps(AddPeer(c, peer), alive, now);
        }
      case Disconnect(peer) =>
        RemovePeerIsValid(c, peer, now);
        RemovePeerKeeps(c, peer);
        DispatchIfKeeps(RemovePeer(c, peer), alive, now);
      case Maintenance =>
        MaintainIsValid(c, now);
        DispatchIfKeeps(Maintain(c, now).0, alive, now);
      case Schedule(data) =>
        InsertKeeps(c, data, now);
        DispatchIfKeeps(Insert(c, data, now), alive, now);
      case Response(peer, id, good) =>
        ResponseKeeps(c, peer, id, good, alive, now);
    }
  }

  lemma ResponseKeeps(c: Core, peer: PeerId, id: nat, good: bool, alive: bool, now: nat)
    requires Valid(c, now)
    ensures var (c', out) := After(c, Response(peer, id, good), alive, now);
            Valid(c', now) && Conserves(c, c', None, out)
  {
    var (c', r) := Remove(c, peer, id);
    if r.None? {
      RemovePeerIsValid(c', peer, now);
      RemovePeerKeeps(c', peer);
    } else if good {
      RemoveKeeps(c, peer, id, now);
      DispatchIfKeeps(c', alive, now);
    } else {
      BadResponseKeeps(c, peer, id, now);
      DispatchIfKeeps(Insert(RemovePeer(c', peer), r.value.data, now), alive, now);
    }
  }

  // ---------- Who stays ----------

  ghost function Counted(b: bool): nat {
    if b then 1 else 0
  }

  lemma {:induction false} MaintainDrops(c: Core, now: nat)
    requires forall p :: Peers(c, p) <= 1
    ensures var (c', bad) := Maintain(c, now); forall p :: Peers(c', p) == if p in bad then 0 else Peers(c, p)
    decreases |c.active|
  {
    if c.active != [] && Expired(c.active[0].1, now) {
      assert c.active[..0] + c.active[0 + 1..] == c.active[1..];
      ReleaseKeeps(c, 0);
      MaintainDrops(Released(c, 0), now);
      var (last, rest) := Maintain(Released(c, 0), now);
      assert Maintain(c, now) == (last, [c.active[0].0] + rest);
      forall p ensures Peers(last, p) == if p in [c.active[0].0] + rest then 0 else Peers(c, p) {
        assert Peers(c, p) <= 1 && Peers(c, p) == Peers(Released(c, 0), p) + if c.active[0].0 == p then 1 else 0;
        assert Peers(last, p) == if p in rest then 0 else Peers(Released(c, 0), p);
      }
    }
  }

  /** A peer is known after an event exactly if it just connected, or was known and neither left
      nor was dropped. */
  lemma WhoStays(c: Core, e: Event, alive: bool, now: nat, p: PeerId)
    requires Valid(c, now) && FreshPeer(c, e)
    ensures Peers(After(c, e, alive, now).0, p)
         == Counted((e == Connect(p, true)) || (Peers(c, p) == 1 && e != Disconnect(p) && p !in Dropped(c, e, now)))
  {
    assert Peers(c, p) <= 1;
    match e {
      case Connect(peer, useful) =>
        if useful {
          TallySnoc(Self, c.idle, peer, p);
          ConnectKeeps(c, peer, now);
          DispatchIfKeeps(AddPeer(c, peer), alive, now);
        }
      case Disconnect(peer) =>
        RemovePeerIsValid(c, peer, now);
        RemovePeerKeeps(c, peer);
        DispatchIfKeeps(RemovePeer(c, peer), alive, now);
      case Maintenance =>
        MaintainIsValid(c, now);
        MaintainDrops(c, now);
        DispatchIfKeeps(Maintain(c, now).0, alive, now);
      case Schedule(data) =>
        InsertKeeps(c, data, now);
        DispatchIfKeeps(Insert(c, data, now), alive, now);
      case Response(peer, id, good) =>
        ResponderStays(c, peer, id, good, alive, now, p);
    }
  }

  lemma ResponderStays(c: Core, peer: PeerId, id: nat, good: bool, alive: bool, now: nat, p: PeerId)
    requires Valid(c, now)
    ensures Peers(After(c, Response(peer, id, good), alive, now).0, p)
         == Counted(Peers(c, p) == 1 && p !in Dropped(c, Response(peer, id, good), now))
  {
    var (c', r) := Remove(c, peer, id);
    assert Peers(c, p) <= 1;
    if r.None? {
      RemovePeerKeeps(c, peer);
    } else if good {
      RemoveKeeps(c, peer, id, now);
      DispatchIfKeeps(c', alive, now);
    } else {
      RemoveKeeps(c, peer, id, now);
      RemovePeerKeeps(c', peer);
      RemovePeerIsValid(c', peer, now);
      InsertKeeps(RemovePeer(c', peer), r.value.data, now);
      DispatchIfKeeps(Insert(RemovePeer(c', peer), r.value.data, now), alive, now);
    }
  }

  // ---------- Runs ----------

  datatype Moment = Moment(event: Event, alive: bool, now: nat)

  function Listed(r: Option<Data>): seq<Data> {
    match r
    case Some(d) => [d]
    case None => []
  }

  /** The state after a run from nothing, and what the run delivered. */
  function Reached(moments: seq<Moment>): (Core, seq<Data>) {
    if moments == [] then (NOTHING, [])
    else
      var (c, delivered) := Reached(moments[..|moments| - 1]);
      var m := moments[|moments| - 1];
      var (c', out) := After(c, m.event, m.alive, m.now);
      (c', delivered + Listed(out))
  }

  function Clock(moments: seq<Moment>): nat {
    if moments == [] then 0 else moments[|moments| - 1].now
  }

  /** Time does not go back, and only peers that are not connected connect. */
  ghost predicate Legal(moments: seq<Moment>) {
    moments != [] ==>
      var init, m := moments[..|moments| - 1], moments[|moments| - 1];
      Legal(init) && Clock(init) <= m.now && FreshPeer(Reached(init).0, m.event)
  }

  function Asked(m: Moment): Option<Data> {
    if m.event.Schedule? then Some(m.event.data) else None
  }

  function Same(d: Data): Data { d }

  /** On every run: no id and no peer twice, idle and active peers disjoint, active requests in
      order of time; and every request scheduled is exactly once waiting, sent or delivered. */
  lemma {:induction false} EveryRunConserves(moments: seq<Moment>)
    requires Legal(moments)
    ensures Valid(Reached(moments).0, Clock(moments))
    ensures forall d :: Held(Reached(moments).0, d) + Tally(Same, Reached(moments).1, d) == Tally(Asked, moments, Some(d))
  {
    if moments == [] {
      NothingIsValid();
    } else {
      var init, m := moments[..|moments| - 1], moments[|moments| - 1];
      EveryRunConserves(init);
      var (c, delivered) := Reached(init);
      EventKeeps(c, m.event, m.alive, Clock(init), m.now);
      var (c', out) := After(c, m.event, m.alive, m.now);
      forall d ensures Held(c', d) + Tally(Same, delivered + Listed(out), d) == Tally(Asked, moments, Some(d)) {
        DeliveredTally(delivered, out, d);
        assert Delivered(Asked(m), d) == if Asked(m) == Some(d) then 1 else 0;
      }
    }
  }

  lemma NothingIsValid()
    ensures Valid(NOTHING, 0) && forall d :: Held(NOTHING, d) == 0
  {
  }

  lemma DeliveredTally(delivered: seq<Data>, out: Option<Data>, d: Data)
    ensures Tally(Same, delivered + Listed(out), d) == Tally(Same, delivered, d) + Delivered(out, d)
  {
    match out {
      case Some(x) => TallySnoc(Same, delivered, x, d);
      case None => assert delivered + [] == delivered;
    }
  }

  // ---------- Answers ----------

  /** Requests of one peer are one request. */
  lemma OneRequestPerPeer(c: Core, i: nat, j: nat)
    requires (forall p :: Peers(c, p) <= 1) && i < |c.active| && j < |c.active| && c.active[i].0 == c.active[j].0
    ensures i == j
  {
    var p := c.active[i].0;
    assert Peers(c, p) <= 1;
    if i != j {
      TallyWithout(PeerOf, c.active, i, p);
      var k := if j < i then j else j - 1;
      assert Without(c.active, i)[k] == c.active[j];
      TallyHas(PeerOf, Without(c.active, i), p);
    }
  }

  lemma FindsRequest(c: Core, peer: PeerId, request: Request)
    requires (forall p :: Peers(c, p) <= 1) && (peer, request) in c.active
    ensures Find(c.active, peer).Some? && c.active[Find(c.active, peer).value] == (peer, request)
  {
    var j :| 0 <= j < |c.active| && c.active[j] == (peer, request);
    OneRequestPerPeer(c, Find(c.active, peer).value, j);
  }

  /** The right answer to what a peer was asked is delivered, and the request is gone. */
  lemma GoodAnswerIsDelivered(c: Core, peer: PeerId, request: Request, alive: bool, now: nat)
    requires Valid(c, now) && (peer, request) in c.active
    ensures var (c', out) := After(c, Response(peer, request.id, true), alive, now);
            out == Some(request.data) && Ids(c', request.id) == 0
  {
    FindsRequest(c, peer, request);
    var i := Find(c.active, peer).value;
    var (c1, _) := Remove(c, peer, request.id);
    RemoveKeeps(c, peer, request.id, now);
    DispatchIfKeeps(c1, alive, now);
    assert Ids(c, request.id) <= 1;
    TallyWithout(ActiveId, c.active, i, request.id);
    assert Ids(c1, request.id) == 0;
  }

  /** Any other answer delivers nothing, and all that was asked for stays asked for. */
  lemma OtherAnswersDeliverNothing(c: Core, peer: PeerId, id: nat, good: bool, alive: bool, now: nat)
    requires Valid(c, now) && (good ==> forall request: Request :: (peer, request) in c.active ==> request.id != id)
    ensures var (c', out) := After(c, Response(peer, id, good), alive, now);
            out == None && forall d :: Held(c', d) == Held(c, d)
  {
    ResponseKeeps(c, peer, id, good, alive, now);
    if good && Find(c.active, peer).Some? {
      assert c.active[Find(c.active, peer).value] in c.active;
    }
  }

  /** The event is the right answer to what the peer was asked, and `data` is what was asked. */
  ghost predicate Answers(c: Core, e: Event, data: Data) {
    e.Response? && e.good && exists request: Request :: (e.peer, request) in c.active && request.id == e.id && request.data == data
  }

  /** The data of the right answers of a run, in order. */
  ghost predicate Answered(moments: seq<Moment>, delivered: seq<Data>) {
    if moments == [] then delivered == []
    else
      var init, e := moments[..|moments| - 1], moments[|moments| - 1].event;
      var c := Reached(init).0;
      if exists data :: Answers(c, e, data)
      then delivered != [] && Answers(c, e, delivered[|delivered| - 1]) && Answered(init, delivered[..|delivered| - 1])
      else Answered(init, delivered)
  }

  lemma DeliversIff(c: Core, e: Event, alive: bool, now: nat, data: Data)
    requires Valid(c, now)
    ensures After(c, e, alive, now).1 == Some(data) <==> Answers(c, e, data)
  {
    if e.Response? {
      if request: Request :| e.good && (e.peer, request) in c.active && request.id == e.id {
        GoodAnswerIsDelivered(c, e.peer, request, alive, now);
        forall other: Request | (e.peer, other) in c.active ensures other == request {
          FindsRequest(c, e.peer, request);
          FindsRequest(c, e.peer, other);
        }
      } else {
        OtherAnswersDeliverNothing(c, e.peer, e.id, e.good, alive, now);
      }
    }
  }

  /** On every run, what is delivered is exactly the data of the right answers, in order. */
  lemma {:induction false} EveryRunDeliversAnswers(moments: seq<Moment>)
    requires Legal(moments)
    ensures Answered(moments, Reached(moments).1)
  {
    if moments != [] {
      var init, m := moments[..|moments| - 1], moments[|moments| - 1];
      EveryRunDeliversAnswers(init);
      EveryRunConserves(init);
      var (c, delivered) := Reached(init);
      LaterIsSorted(c.active, Clock(init), m.now);
      forall data ensures After(c, m.event, m.alive, m.now).1 == Some(data) <==> Answers(c, m.event, data) {
        DeliversIff(c, m.event, m.alive, m.now, data);
      }
      match After(c, m.event, m.alive, m.now).1 {
        case Some(data) =>
          assert Answers(c, m.event, data);
          assert (delivered + [data])[..|delivered|] == delivered;
        case None =>
          assert delivered + [] == delivered;
      }
    }
  }

  // ---------- First come, first served ----------

  /** Dispatching pairs the waiting requests with the idle peers, both in order. */
  ghost predicate Pairs(c: Core, now: nat, c': Core) {
    var n := if |c.pending| <= |c.idle| then |c.pending| else |c.idle|;
    && c'.nextId == c.nextId && c'.pending == c.pending[n..] && c'.idle == c.idle[n..]
    && |c'.active| == |c.active| + n && c'.active[..|c.active|] == c.active
    && forall k :: 0 <= k < n ==> c'.active[|c.active| + k] == (c.idle[k], c.pending[k].(timestamp := now))
  }

  lemma {:induction false} DispatchPairs(c: Core, now: nat)
    requires Valid(c, now)
    ensures Pairs(c, now, Dispatch(c, now))
    decreases |c.pending|
  {
    if c.pending == [] || c.idle == [] {
      assert c.pending[0..] == c.pending && c.idle[0..] == c.idle && c.active[..|c.active|] == c.active;
    } else {
      SentKeeps(c, now);
      SentIsValid(c, now);
      DispatchPairs(Sent(c, now), now);
      PairsNext(c, now, Dispatch(c, now));
    }
  }

  lemma PairsNext(c: Core, now: nat, c': Core)
    requires c.pending != [] && c.idle != [] && Pairs(Sent(c, now), now, c')
    requires Sent(c, now).active == c.active + [(c.idle[0], c.pending[0].(timestamp := now))]
    ensures Pairs(c, now, c')
  {
    var s := Sent(c, now);
    var n := if |s.pending| <= |s.idle| then |s.pending| else |s.idle|;
    assert c.pending[1..][n..] == c.pending[n + 1..] && c.idle[1..][n..] == c.idle[n + 1..];
    assert c'.active[..|c.active|] == c'.active[..|s.active|][..|c.active|] == c.active;
    forall k | 0 <= k < n + 1 ensures c'.active[|c.active| + k] == (c.idle[k], c.pending[k].(timestamp := now)) {
      if k == 0 {
        assert c'.active[|c.active|] == c'.active[..|s.active|][|c.active|];
      } else {
        assert c'.active[|s.active| + (k - 1)] == (s.idle[k - 1], s.pending[k - 1].(timestamp := now));
      }
    }
  }

  /** What an event does before anything is sent: where requests and peers are put. What happens to
      requests that time out is said by MaintainFindsExpired and MaintainQueues. */
  ghost predicate Moves(c: Core, e: Event, now: nat, c': Core) {
    match e
    case Connect(peer, useful) => c' == if useful then c.(idle := c.idle + [peer]) else c
    case Schedule(data) => c' == c.(nextId := c.nextId + 1, pending := c.pending + [Request(c.nextId, now, data)])
    case Maintenance => true
    case Disconnect(peer) => Leaves(c, peer, c')
    case Response(peer, id, good) => Responds(c, peer, id, good, now, c')
  }

  ghost predicate Responds(c: Core, peer: PeerId, id: nat, good: bool, now: nat, c': Core) {
    && (forall i :: 0 <= i < |c.active| && c.active[i].0 == peer && c.active[i].1.id == id ==> TakesAnswer(c, i, good, now, c'))
    && ((forall i :: 0 <= i < |c.active| && c.active[i].0 == peer ==> c.active[i].1.id != id) ==> Leaves(c, peer, c'))
  }

  /** The peer's request goes back to the queue, or the peer leaves the idle ones. */
  ghost predicate Leaves(c: Core, peer: PeerId, c': Core) {
    && (forall i :: 0 <= i < |c.active| && c.active[i].0 == peer ==> GivesUp(c, i, c'))
    && ((forall i :: 0 <= i < |c.active| ==> c.active[i].0 != peer) ==>
          && (forall j :: 0 <= j < |c.idle| && c.idle[j] == peer ==> Vacates(c, j, c'))
          && (peer !in c.idle ==> c' == c))
  }

  /** The last of the idle peers takes the place of one that leaves. */
  ghost predicate Vacates(c: Core, j: nat, c': Core)
    requires j < |c.idle|
  {
    && c' == c.(idle := c'.idle) && |c'.idle| == |c.idle| - 1
    && forall k :: 0 <= k < |c'.idle| ==> c'.idle[k] == c.idle[if k == j then |c.idle| - 1 else k]
  }

  /** The peer is idle again, as the last; or its answer was bad, and the request is asked anew. */
  ghost predicate TakesAnswer(c: Core, i: nat, good: bool, now: nat, c': Core)
    requires i < |c.active|
  {
    && c'.active == c.active[..i] + c.active[i + 1..]
    && if good then c'.idle == c.idle + [c.active[i].0] && c'.nextId == c.nextId && c'.pending == c.pending
       else c'.idle == c.idle && c'.nextId == c.nextId + 1 && c'.pending == c.pending + [Request(c.nextId, now, c.active[i].1.data)]
  }

  /** The request goes to the front of the queue. */
  ghost predicate GivesUp(c: Core, i: nat, c': Core)
    requires i < |c.active|
  {
    c' == c.(active := c.active[..i] + c.active[i + 1..], pending := [c.active[i].1] + c.pending)
  }

  lemma FindsIndex(c: Core, i: nat)
    requires (forall p :: Peers(c, p) <= 1) && i < |c.active|
    ensures Find(c.active, c.active[i].0) == Some(i)
  {
    OneRequestPerPeer(c, Find(c.active, c.active[i].0).value, i);
  }

  lemma PeerLeaves(c: Core, peer: PeerId)
    requires forall p :: Peers(c, p) <= 1
    ensures Leaves(c, peer, RemovePeer(c, peer))
  {
    var c' := RemovePeer(c, peer);
    forall i: nat | i < |c.active| && c.active[i].0 == peer ensures GivesUp(c, i, c') {
      FindsIndex(c, i);
    }
    if forall i :: 0 <= i < |c.active| ==> c.active[i].0 != peer {
      forall j: nat | j < |c.idle| && c.idle[j] == peer ensures Vacates(c, j, c') {
        OnePlacePerPeer(c, IndexOf(c.idle, peer).value, j);
      }
    }
  }

  lemma OnePlacePerPeer(c: Core, i: nat, j: nat)
    requires (forall p :: Peers(c, p) <= 1) && i < |c.idle| && j < |c.idle| && c.idle[i] == c.idle[j]
    ensures i == j
  {
    var p := c.idle[i];
    assert Peers(c, p) <= 1;
    if i != j {
      TallyWithout(Self, c.idle, i, p);
      var k := if j < i then j else j - 1;
      assert Without(c.idle, i)[k] == c.idle[j];
      TallyHas(Self, Without(c.idle, i), p);
    }
  }

  /** While there is no service, every event puts requests and peers where `Moves` says. */
  lemma EventMoves(c: Core, e: Event, now: nat)
    requires Valid(c, now)
    ensures Moves(c, e, now, After(c, e, false, now).0)
  {
    match e {
      case Disconnect(peer) => PeerLeaves(c, peer);
      case Response(peer, id, good) => ResponseMoves(c, peer, id, good, now);
      case _ =>
    }
  }

  lemma ResponseMoves(c: Core, peer: PeerId, id: nat, good: bool, now: nat)
    requires forall p :: Peers(c, p) <= 1
    ensures Responds(c, peer, id, good, now, After(c, Response(peer, id, good), false, now).0)
  {
    var c' := After(c, Response(peer, id, good), false, now).0;
    forall i: nat | i < |c.active| && c.active[i].0 == peer && c.active[i].1.id == id ensures TakesAnswer(c, i, good, now, c') {
      FindsIndex(c, i);
      if !good {
        BadPeerLeaves(c, peer, id);
      }
    }
    if forall i :: 0 <= i < |c.active| && c.active[i].0 == peer ==> c.active[i].1.id != id {
      assert Remove(c, peer, id) == (c, None);
      PeerLeaves(c, peer);
    }
  }

  /** A peer whose answer is bad was put back among the idle, as their last, and leaves from there. */
  lemma BadPeerLeaves(c: Core, peer: PeerId, id: nat)
    requires (forall p :: Peers(c, p) <= 1) && Remove(c, peer, id).1.Some?
    ensures RemovePeer(Remove(c, peer, id).0, peer) == c.(active := Without(c.active, Find(c.active, peer).value))
  {
    var i := Find(c.active, peer).value;
    var c1 := Remove(c, peer, id).0;
    assert Peers(c, peer) <= 1;
    TallyWithout(PeerOf, c.active, i, peer);
    TallyHas(PeerOf, c1.active, peer);
    TallyHas(Self, c.idle, peer);
    assert Find(c1.active, peer).None?;
    LastIndex(c.idle, peer);
    assert (c.idle + [peer])[..|c.idle|] == c.idle;
  }

  lemma {:induction false} LastIndex(idle: seq<PeerId>, peer: PeerId)
    requires forall i :: 0 <= i < |idle| ==> idle[i] != peer
    ensures IndexOf(idle + [peer], peer) == Some(|idle|)
  {
    if idle != [] {
      assert (idle + [peer])[1..] == idle[1..] + [peer];
      LastIndex(idle[1..], peer);
    }
  }

  /** With the service, the same happens and then the waiting requests are sent, except after an
      unmatched response and after a useless peer connects. */
  lemma ServiceDispatches(c: Core, e: Event, now: nat)
    ensures After(c, e, true, now).1 == After(c, e, false, now).1
    ensures var idle := (e.Connect? && !e.useful) || Unmatched(c, e);
            After(c, e, true, now).0 == if idle then After(c, e, false, now).0 else Dispatch(After(c, e, false, now).0, now)
  {
  }

  // ---------- Progress, and where the assumptions matter ----------

  /** The response does not match what the peer was asked. */
  ghost predicate Unmatched(c: Core, e: Event) {
    e.Response? && Remove(c, e.peer, e.id).1.None?
  }

  /** The peer is busy with another request, and some peer is idle. */
  ghost predicate Stalls(c: Core, e: Event) {
    Unmatched(c, e) && Find(c.active, e.peer).Some? && c.idle != []
  }

  /** After an event nobody waits while a peer is idle. An unmatched response is the exception:
      its peer's request goes back to waiting and nothing is dispatched. */
  lemma SettledAfterIff(c: Core, e: Event, now: nat)
    requires Valid(c, now) && Settled(c) && FreshPeer(c, e)
    ensures Settled(After(c, e, true, now).0) <==> !Stalls(c, e)
  {
    match e {
      case Connect(peer, useful) =>
        if useful {
          ConnectKeeps(c, peer, now);
          DispatchIfKeeps(AddPeer(c, peer), true, now);
        }
      case Disconnect(peer) =>
        RemovePeerIsValid(c, peer, now);
        DispatchIfKeeps(RemovePeer(c, peer), true, now);
      case Maintenance =>
        MaintainIsValid(c, now);
        DispatchIfKeeps(Maintain(c, now).0, true, now);
      case Schedule(data) =>
        InsertKeeps(c, data, now);
        DispatchIfKeeps(Insert(c, data, now), true, now);
      case Response(peer, id, good) =>
        var (c', r) := Remove(c, peer, id);
        if r.Some? {
          if good {
            RemoveKeeps(c, peer, id, now);
            DispatchIfKeeps(c', true, now);
          } else {
            BadResponseKeeps(c, peer, id, now);
            DispatchIfKeeps(Insert(RemovePeer(c', peer), r.value.data, now), true, now);
          }
        }
    }
  }

  /** The network service exists throughout, and no unmatched response stalls. */
  ghost predicate Smooth(moments: seq<Moment>) {
    moments != [] ==>
      var init, m := moments[..|moments| - 1], moments[|moments| - 1];
      Smooth(init) && m.alive && !Stalls(Reached(init).0, m.event)
  }

  /** On every such run nobody ever waits while a peer is idle. */
  lemma {:induction false} EverySmoothRunSettles(moments: seq<Moment>)
    requires Legal(moments) && Smooth(moments)
    ensures Settled(Reached(moments).0)
  {
    if moments != [] {
      var init, m := moments[..|moments| - 1], moments[|moments| - 1];
      EverySmoothRunSettles(init);
      EveryRunConserves(init);
      var c := Reached(init).0;
      LaterIsSorted(c.active, Clock(init), m.now);
      SettledAfterIff(c, m.event, m.now);
    }
  }

  /** One more event, with the service alive. */
  lemma ReachedSnoc(moments: seq<Moment>, e: Event, now: nat)
    ensures Reached(moments + [Moment(e, true, now)]).0 == After(Reached(moments).0, e, true, now).0
    ensures Legal(moments + [Moment(e, true, now)]) <==> Legal(moments) && Clock(moments) <= now && FreshPeer(Reached(moments).0, e)
  {
    var longer := moments + [Moment(e, true, now)];
    assert longer[..|longer| - 1] == moments;
  }

  lemma ConnectReaches(moments: seq<Moment>, c: Core, p: PeerId, now: nat)
    requires Reached(moments).0 == c && Legal(moments) && Clock(moments) <= now
    requires c.pending == [] && c.active == [] && p !in c.idle
    ensures var longer := moments + [Moment(Connect(p, true), true, now)];
            Legal(longer) && Clock(longer) == now && Reached(longer).0 == c.(idle := c.idle + [p])
  {
    ReachedSnoc(moments, Connect(p, true), now);
    TallyHas(Self, c.idle, p);
    assert Dispatch(AddPeer(c, p), now) == AddPeer(c, p);
  }

  lemma TwoPeersConnect(p: PeerId, q: PeerId, now: nat) returns (moments: seq<Moment>)
    requires p != q
    ensures moments == [Moment(Connect(p, true), true, now), Moment(Connect(q, true), true, now)]
    ensures Legal(moments) && Clock(moments) == now && Reached(moments).0 == Core(0, [], [], [p, q])
  {
    var none: seq<Moment> := [];
    ConnectReaches(none, NOTHING, p, now);
    assert NOTHING.idle + [p] == [p];
    ConnectReaches(none + [Moment(Connect(p, true), true, now)], Core(0, [], [], [p]), q, now);
    assert [p] + [q] == [p, q];
    moments := none + [Moment(Connect(p, true), true, now)] + [Moment(Connect(q, true), true, now)];
  }

  lemma FirstRequestIsSent(p: PeerId, q: PeerId, data: Data, now: nat)
    ensures After(Core(0, [], [], [p, q]), Schedule(data), true, now).0 == Core(1, [], [(p, Request(0, now, data))], [q])
  {
    var c, request := Core(0, [], [], [p, q]), Request(0, now, data);
    var asked, sent := Core(1, [request], [], [p, q]), Core(1, [], [(p, request)], [q]);
    assert c.pending + [request] == [request];
    assert Insert(c, data, now) == asked;
    assert [request][1..] == [] && [p, q][1..] == [q];
    assert asked.active + [(p, request)] == [(p, request)];
    assert Sent(asked, now) == sent;
    assert Dispatch(sent, now) == sent;
  }

  lemma WrongIdStalls(p: PeerId, q: PeerId, request: Request, id: nat, good: bool, now: nat)
    requires id != request.id
    ensures After(Core(1, [], [(p, request)], [q]), Response(p, id, good), true, now).0 == Core(1, [request], [], [q])
  {
    var c := Core(1, [], [(p, request)], [q]);
    assert Find(c.active, p) == Some(0);
    assert Without(c.active, 0) == [] && [request] + c.pending == [request];
  }

  /** Two peers connect, a request is sent to the first, and the first answers with another id:
      the request waits while the second peer is idle. */
  lemma WrongIdLeavesRequestWaiting(p: PeerId, q: PeerId, data: Data, id: nat, good: bool, now: nat) returns (moments: seq<Moment>)
    requires p != q && id != 0
    ensures Legal(moments) && (forall i :: 0 <= i < |moments| ==> moments[i].alive)
    ensures |moments| == 4 && moments[0].event == Connect(p, true) && moments[1].event == Connect(q, true)
    ensures moments[2].event == Schedule(data) && moments[3].event == Response(p, id, good)
    ensures Reached(moments).0 == Core(1, [Request(0, now, data)], [], [q]) && !Settled(Reached(moments).0)
  {
    var connected := TwoPeersConnect(p, q, now);
    var asked := connected + [Moment(Schedule(data), true, now)];
    ReachedSnoc(connected, Schedule(data), now);
    FirstRequestIsSent(p, q, data, now);
    moments := asked + [Moment(Response(p, id, good), true, now)];
    ReachedSnoc(asked, Response(p, id, good), now);
    WrongIdStalls(p, q, Request(0, now, data), id, good, now);
  }

  /** Sending a request loses none exactly when the peer has none: the active peers are a map. */
  lemma SendingKeepsRequestsIff(c: Core, now: nat)
    requires c.pending != [] && c.idle != []
    ensures KeepsRequests(c, Sent(c, now)) <==> Find(c.active, c.idle[0]).None?
  {
    var entry := (c.idle[0], c.pending[0].(timestamp := now));
    match Find(c.active, c.idle[0]) {
      case None =>
        forall id: nat ensures Ids(Sent(c, now), id) == Ids(c, id) {
          TallyTail(IdOf, c.pending, id);
          TallySnoc(ActiveId, c.active, entry, id);
        }
        forall data ensures Held(Sent(c, now), data) == Held(c, data) {
          TallyTail(DataOf, c.pending, data);
          TallySnoc(ActiveData, c.active, entry, data);
        }
      case Some(i) =>
        var lost := c.active[i].1.data;
        TallyTail(DataOf, c.pending, lost);
        TallyWithout(ActiveData, c.active, i, lost);
        TallySnoc(ActiveData, Without(c.active, i), entry, lost);
        assert Held(Sent(c, now), lost) == Held(c, lost) - 1;
    }
  }

  /** So if a peer with a request connects again, the next request scheduled costs that one. */
  lemma SecondConnectLosesRequest(c: Core, peer: PeerId, data: Data, now: nat)
    requires Settled(c) && c.idle == [] && c.pending == [] && Find(c.active, peer).Some?
    ensures var c' := Insert(AddPeer(c, peer), data, now);
            c'.pending != [] && c'.idle != [] && Dispatch(c', now) == Sent(c', now) && !KeepsRequests(c', Sent(c', now))
  {
    var c' := Insert(AddPeer(c, peer), data, now);
    assert c'.idle[0] == peer && |c'.pending| == 1;
    SendingKeepsRequestsIff(c', now);
  }

  // ---------- The object ----------

  class OnDemandCore {
    var alive: bool
    var nextId: nat
    var pending: seq<Request>
    var active: seq<(PeerId, Request)>
    var idle: seq<PeerId>

    ghost function Contents(): Core
      reads this
    {
      Core(nextId, pending, active, idle)
    }

    constructor ()
      ensures Contents() == NOTHING && !alive
    {
      alive, nextId, pending, active, idle := false, 0, [], [], [];
    }

    method SetServiceLink(exists': bool)
      modifies this`alive
      ensures alive == exists'
    {
      alive := exists';
    }

    method DoRemovePeer(peer: PeerId)
      modifies this`active, this`pending, this`idle
      ensures Contents() == RemovePeer(old(Contents()), peer)
    {
      var at := Find(active, peer);
      if at.Some? {
        pending := [active[at.value].1] + pending;
        active := active[..at.value] + active[at.value + 1..];
        return;
      }
      var index := IndexOf(idle, peer);
      if index.Some? {
        idle := SwapRemove(idle, index.value);
      }
    }

    method MaintainPeers(now: nat) returns (bad: seq<PeerId>)
      modifies this`active, this`pending
      ensures (Contents(), bad) == Maintain(old(Contents()), now)
    {
      bad := [];
      ghost var was := Contents();
      assert [] + Maintain(was, now).1 == Maintain(was, now).1;
      while active != [] && Expired(active[0].1, now)
        invariant Maintain(was, now) == (Maintain(Contents(), now).0, bad + Maintain(Contents(), now).1)
        invariant nextId == was.nextId && idle == was.idle
        decreases |active|
      {
        var (peer, request) := active[0];
        assert bad + ([peer] + Maintain(Contents().(active := active[1..], pending := [request] + pending), now).1)
            == bad + [peer] + Maintain(Contents().(active := active[1..], pending := [request] + pending), now).1;
        active := active[1..];
        pending := [request] + pending;
        bad := bad + [peer];
      }
      assert bad + [] == bad;
    }

    method DoInsert(data: Data, now: nat)
      modifies this`nextId, this`pending
      ensures Contents() == Insert(old(Contents()), data, now)
    {
      var id := nextId;
      nextId := nextId + 1;
      pending := pending + [Request(id, now, data)];
    }

    method DoRemove(peer: PeerId, id: nat) returns (r: Option<Request>)
      modifies this`active, this`idle
      ensures (Contents(), r) == Remove(old(Contents()), peer, id)
    {
      var at := Find(active, peer);
      if at.Some? && active[at.value].1.id == id {
        r := Some(active[at.value].1);
        idle := idle + [peer];
        active := active[..at.value] + active[at.value + 1..];
      } else {
        r := None;
      }
    }

    method DoDispatch(now: nat)
      modifies this`pending, this`active, this`idle
      ensures Contents() == DispatchIf(old(Contents()), alive, now)
    {
      if !alive {
        return;
      }
      ghost var was := Contents();
      while pending != []
        invariant alive && nextId == was.nextId && Dispatch(was, now) == Dispatch(Contents(), now)
        decreases |pending|
      {
        if idle == [] {
          return;
        }
        var peer, request := idle[0], pending[0];
        idle := idle[1..];
        pending := pending[1..];
        active := Put(active, peer, request.(timestamp := now));
      }
    }

    /** One call of the service: what it delivers, and the peers it disconnects from. */
    method Handle(e: Event, now: nat) returns (out: Option<Data>, dropped: seq<PeerId>)
      modifies this
      ensures alive == old(alive) && (Contents(), out) == After(old(Contents()), e, alive, now)
      ensures dropped == Dropped(old(Contents()), e, now)
    {
      out, dropped := None, [];
      match e {
        case Connect(peer, useful) =>
          if !useful {
            return;
          }
          idle := idle + [peer];
        case Disconnect(peer) =>
          DoRemovePeer(peer);
        case Maintenance =>
          dropped := MaintainPeers(now);
        case Schedule(data) =>
          DoInsert(data, now);
        case Response(peer, id, good) =>
          var r := DoRemove(peer, id);
          if r.None? {
            dropped := [peer];
            DoRemovePeer(peer);
            return;
          }
          if good {
            out := Some(r.value.data);
          } else {
            dropped := [peer];
            DoRemovePeer(peer);
            DoInsert(r.value.data, now);
          }
      }
      DoDispatch(now);
    }
  }
}
