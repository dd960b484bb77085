/** Tunnel leases and devices: Connect and Revoke as interleaved steps, each one locked call. */
module Leases {
  import opened Basics
  import opened Counting
  import opened Netalloc
  import opened NetallocRuns
  import opened Store

  const MAX_PEERS_PER_USER: nat := 3

  datatype PoolKey = PoolKey(node: string, stealth: bool)

  /** What a Connect asks for: this user's device, told by its public key, on this pool. */
  datatype Device = Device(user: string, node: string, stealth: bool, key: string)

  /** Where a call stands between two of its locked calls. Connect: subscription read, device list
      checked, lease taken, save failed. Revoke: own peer found, lease freed. */
  datatype Call =
    | Subscribed(device: Device)
    | Checked(device: Device)
    | Holding(device: Device, lease: Prefix)
    | Undoing(device: Device, lease: Prefix)
    | Found(peer: Peer)
    | Freeing(peer: Peer)

  datatype World = World(
    pools: map<PoolKey, Pool>, peers: map<string, Peer>, subs: map<string, string>, calls: map<nat, Call>)

  function KeyOf(d: Device): PoolKey {
    PoolKey(d.node, d.stealth)
  }

  function PeerKey(p: Peer): PoolKey {
    PoolKey(p.node, p.stealth)
  }

  predicate Entitled(subs: map<string, string>, user: string) {
    user in subs && (subs[user] == "active" || subs[user] == "trialing")
  }

  predicate Matches(p: Peer, d: Device) {
    p.node == d.node && p.stealth == d.stealth && p.publicKey == d.key
  }

  function MatchesOf(peers: map<string, Peer>, d: Device): set<string> {
    set id | id in ActiveOf(peers, d.user) && Matches(peers[id], d)
  }

  function NewPeer(d: Device, lease: Prefix, id: string, now: int): Peer {
    Peer(id, d.user, d.node, d.stealth, lease, d.key, now, true)
  }

  /** The pools of the default node table. */
  predicate KnownPool(k: PoolKey) {
    k.node == DEFAULT_NODES[0].id || k.node == DEFAULT_NODES[1].id
  }

  function Block(k: PoolKey): Prefix {
    PrefixOf(if k.node == DEFAULT_NODES[0].id then DEFAULT_NODES[0] else DEFAULT_NODES[1], k.stealth)
  }

  // ---- Steps ----

  datatype Step =
    | SetSubscription(user: string, state: string)
    | ReadSubscription(call: nat, device: Device)
    | CheckDevices(call: nat)
    | TakeLease(call: nat)
    | SavePeer(call: nat, id: string, now: int)
    | FailSave(call: nat)
    | UndoLease(call: nat)
    | FindPeer(call: nat, user: string, peerID: string)
    | FreeLease(call: nat)
    | Deactivate(call: nat)

  ghost predicate Revoking(w: World, id: string) {
    exists c | c in w.calls :: (w.calls[c].Found? || w.calls[c].Freeing?) && w.calls[c].peer.id == id
  }

  /** What the service lets happen: the steps of a call come in order, and new identifiers are fresh. */
  ghost predicate Possible(w: World, s: Step) {
    match s
    case SetSubscription(_, _) => true
    case ReadSubscription(c, _) => c !in w.calls
    case CheckDevices(c) => c in w.calls && w.calls[c].Subscribed?
    case TakeLease(c) => c in w.calls && w.calls[c].Checked? && KeyOf(w.calls[c].device) in w.pools
    case SavePeer(c, id, _) => c in w.calls && w.calls[c].Holding? && id !in w.peers
    case FailSave(c) => c in w.calls && w.calls[c].Holding?
    case UndoLease(c) => c in w.calls && w.calls[c].Undoing? && KeyOf(w.calls[c].device) in w.pools
    case FindPeer(c, _, _) => c !in w.calls
    case FreeLease(c) => c in w.calls && w.calls[c].Found?
    case Deactivate(c) => c in w.calls && w.calls[c].Freeing?
  }

  /** The hypothesis of the agreement theorems: one Revoke finds a given peer at a time. */
  ghost predicate Enabled(w: World, s: Step) {
    Possible(w, s) && (s.FindPeer? && s.peerID in ActiveOf(w.peers, s.user) ==> !Revoking(w, s.peerID))
  }

  function AfterCheck(w: World, c: nat, d: Device): World {
    if MatchesOf(w.peers, d) != {} || |ActiveOf(w.peers, d.user)| >= MAX_PEERS_PER_USER
    then w.(calls := w.calls - {c})
    else w.(calls := w.calls[c := Checked(d)])
  }

  function AfterTake(w: World, c: nat, d: Device): World
    requires KeyOf(d) in w.pools
  {
    var (q, lease) := Allocated(w.pools[KeyOf(d)], d.user);
    World(w.pools[KeyOf(d) := q], w.peers, w.subs,
          if lease.None? then w.calls - {c} else w.calls[c := Holding(d, lease.value)])
  }

  function AfterSave(w: World, c: nat, p: Peer): World {
    w.(peers := w.peers[p.id := p], calls := w.calls - {c})
  }

  function AfterUndo(w: World, c: nat, d: Device, lease: Prefix): World
    requires KeyOf(d) in w.pools
  {
    var q := Released(w.pools[KeyOf(d)], lease, d.user).0;
    World(w.pools[KeyOf(d) := q], w.peers, w.subs, w.calls - {c})
  }

  function AfterFree(w: World, c: nat, p: Peer): World {
    var k := PeerKey(p);
    World(if k in w.pools then w.pools[k := Released(w.pools[k], p.address, p.user).0] else w.pools,
          w.peers, w.subs, w.calls[c := Freeing(p)])
  }

  function AfterDeactivate(w: World, c: nat, p: Peer): World {
    World(w.pools,
          if p.id in w.peers && w.peers[p.id].user == p.user
          then w.peers[p.id := w.peers[p.id].(active := false)] else w.peers,
          w.subs, w.calls - {c})
  }

  ghost function Execute(w: World, s: Step): World
    requires Possible(w, s)
  {
    match s
    case SetSubscription(user, state) => w.(subs := w.subs[user := state])
    case ReadSubscription(c, d) =>
      if Entitled(w.subs, d.user) && KeyOf(d) in w.pools
      then w.(calls := w.calls[c := Subscribed(d)])
      else w
    case CheckDevices(c) => AfterCheck(w, c, w.calls[c].device)
    case TakeLease(c) => AfterTake(w, c, w.calls[c].device)
    case SavePeer(c, id, now) =>
      AfterSave(w, c, NewPeer(w.calls[c].device, w.calls[c].lease, id, now))
    case FailSave(c) => w.(calls := w.calls[c := Undoing(w.calls[c].device, w.calls[c].lease)])
    case UndoLease(c) => AfterUndo(w, c, w.calls[c].device, w.calls[c].lease)
    case FindPeer(c, user, id) =>
      if id in ActiveOf(w.peers, user) then w.(calls := w.calls[c := Found(w.peers[id])]) else w
    case FreeLease(c) => AfterFree(w, c, w.calls[c].peer)
    case Deactivate(c) => AfterDeactivate(w, c, w.calls[c].peer)
  }

  // ---- What backs a lease ----

  datatype Backer = ByPeer(id: string) | ByCall(call: nat)

  datatype Claim = Claim(pool: PoolKey, addr: Addr, user: string)

  ghost predicate LeaseFreed(calls: map<nat, Call>, id: string) {
    exists c | c in calls :: calls[c].Freeing? && calls[c].peer.id == id
  }

  /** A stored active peer claims its address until a Revoke frees its lease; a Connect claims the
      address it was given until it saves its peer or gives the address back. */
  ghost function ClaimOf(w: World, b: Backer): Option<Claim> {
    match b
    case ByPeer(id) =>
      if id in w.peers && w.peers[id].active && !LeaseFreed(w.calls, id)
      then Some(Claim(PeerKey(w.peers[id]), w.peers[id].address.addr, w.peers[id].user))
      else None
    case ByCall(c) =>
      if c in w.calls && (w.calls[c].Holding? || w.calls[c].Undoing?)
      then Some(Claim(KeyOf(w.calls[c].device), w.calls[c].lease.addr, w.calls[c].device.user))
      else None
  }

  ghost predicate Granted(pools: map<PoolKey, Pool>, c: Claim) {
    c.pool in pools && c.addr in pools[c.pool].held && pools[c.pool].held[c.addr] == c.user
  }

  ghost predicate ClaimsGranted(w: World) {
    forall b | ClaimOf(w, b).Some? :: Granted(w.pools, ClaimOf(w, b).value)
  }

  ghost predicate ClaimsDistinct(w: World) {
    forall b, d | ClaimOf(w, b).Some? && ClaimOf(w, d).Some?
                  && ClaimOf(w, b).value.pool == ClaimOf(w, d).value.pool
                  && ClaimOf(w, b).value.addr == ClaimOf(w, d).value.addr :: b == d
  }

  ghost predicate HeldIsClaimed(w: World) {
    forall k, a | k in w.pools && a in w.pools[k].held ::
      exists b :: ClaimOf(w, b) == Some(Claim(k, a, w.pools[k].held[a]))
  }

  /** Each held address has exactly one backer, with its user; each backer's address is held. */
  ghost predicate Backed(w: World) {
    ClaimsGranted(w) && ClaimsDistinct(w) && HeldIsClaimed(w)
  }

  lemma {:induction false} ClaimsUnmoved(w: World, v: World)
    requires Backed(w) && v.pools == w.pools
    requires forall b :: ClaimOf(v, b) == ClaimOf(w, b)
    ensures Backed(v)
  {
  }

  lemma {:induction false} ClaimMade(w: World, v: World, b0: Backer, c: Claim, q: Pool)
    requires Backed(w) && c.pool in w.pools && v.pools == w.pools[c.pool := q]
    requires c.addr !in w.pools[c.pool].held && q.held == w.pools[c.pool].held[c.addr := c.user]
    requires ClaimOf(w, b0) == None && ClaimOf(v, b0) == Some(c)
    requires forall b | b != b0 :: ClaimOf(v, b) == ClaimOf(w, b)
    ensures Backed(v)
  {
    hide ClaimOf;
    forall k, a | k in v.pools && a in v.pools[k].held
      ensures exists b :: ClaimOf(v, b) == Some(Claim(k, a, v.pools[k].held[a]))
    {
      if k == c.pool && a == c.addr {
        assert ClaimOf(v, b0) == Some(Claim(k, a, v.pools[k].held[a]));
      } else {
        var b :| ClaimOf(w, b) == Some(Claim(k, a, w.pools[k].held[a]));
        assert b != b0 && ClaimOf(v, b) == ClaimOf(w, b);
      }
    }
  }

  lemma {:induction false} ClaimDropped(w: World, v: World, b0: Backer, c: Claim, q: Pool)
    requires Backed(w) && c.pool in w.pools && v.pools == w.pools[c.pool := q]
    requires q.held == w.pools[c.pool].held - {c.addr}
    requires ClaimOf(w, b0) == Some(c) && ClaimOf(v, b0) == None
    requires forall b | b != b0 :: ClaimOf(v, b) == ClaimOf(w, b)
    ensures Backed(v)
  {
    hide ClaimOf;
    forall k, a | k in v.pools && a in v.pools[k].held
      ensures exists b :: ClaimOf(v, b) == Some(Claim(k, a, v.pools[k].held[a]))
    {
      var b :| ClaimOf(w, b) == Some(Claim(k, a, w.pools[k].held[a]));
      assert b != b0 && ClaimOf(v, b) == ClaimOf(w, b);
    }
  }

  lemma {:induction false} ClaimPassed(w: World, v: World, b0: Backer, b1: Backer)
    requires Backed(w) && v.pools == w.pools && b0 != b1
    requires ClaimOf(w, b0).Some? && ClaimOf(v, b1) == ClaimOf(w, b0)
    requires ClaimOf(v, b0) == None && ClaimOf(w, b1) == None
    requires forall b | b != b0 && b != b1 :: ClaimOf(v, b) == ClaimOf(w, b)
    ensures Backed(v)
  {
    hide ClaimOf;
    forall k, a | k in v.pools && a in v.pools[k].held
      ensures exists b :: ClaimOf(v, b) == Some(Claim(k, a, v.pools[k].held[a]))
    {
      var b :| ClaimOf(w, b) == Some(Claim(k, a, w.pools[k].held[a]));
      if b == b0 {
        assert ClaimOf(v, b1) == ClaimOf(w, b);
      } else {
        assert b != b1 && ClaimOf(v, b) == ClaimOf(w, b);
      }
    }
  }

  // ---- What every step keeps ----

  predicate IsRevoke(call: Call) {
    call.Found? || call.Freeing?
  }

  ghost predicate PeersPooled(keys: set<PoolKey>, peers: map<string, Peer>) {
    KeyedById(peers) && forall id | id in peers :: PeerKey(peers[id]) in keys
  }

  predicate CallStored(keys: set<PoolKey>, peers: map<string, Peer>, call: Call) {
    if IsRevoke(call) then call.peer.id in peers && peers[call.peer.id].(active := true) == call.peer
    else KeyOf(call.device) in keys
  }

  /** Every Connect in flight has a pool; every Revoke in flight found a peer that is stored, perhaps
      deactivated since. */
  ghost predicate CallsStored(keys: set<PoolKey>, peers: map<string, Peer>, calls: map<nat, Call>) {
    forall c | c in calls :: CallStored(keys, peers, calls[c])
  }

  /** Every Connect in flight has a pool; every Revoke in flight has its peer, still active, to itself. */
  ghost predicate CallsValid(keys: set<PoolKey>, peers: map<string, Peer>, calls: map<nat, Call>) {
    && (forall c | c in calls && !IsRevoke(calls[c]) :: KeyOf(calls[c].device) in keys)
    && (forall c | c in calls && IsRevoke(calls[c]) ::
          calls[c].peer.active && calls[c].peer.id in peers && peers[calls[c].peer.id] == calls[c].peer)
    && (forall c, e | c in calls && e in calls && IsRevoke(calls[c]) && IsRevoke(calls[e])
                      && calls[c].peer.id == calls[e].peer.id :: c == e)
  }

  /** Each pool is one the default table defines, and its allocator is in a reachable state. */
  ghost predicate PoolsSound(pools: map<PoolKey, Pool>) {
    forall k | k in pools :: KnownPool(k) && pools[k].base == Block(k) && Sound(pools[k])
  }

  ghost predicate Consistent(w: World) {
    && PeersPooled(w.pools.Keys, w.peers)
    && CallsValid(w.pools.Keys, w.peers, w.calls)
    && PoolsSound(w.pools)
    && Backed(w)
  }

  /** The calls differ at most in call c. */
  ghost predicate SameElsewhere(calls: map<nat, Call>, after: map<nat, Call>, c: nat) {
    && (forall e | e in calls && e != c :: e in after && after[e] == calls[e])
    && (forall e | e in after && e != c :: e in calls)
  }

  lemma {:induction false} SameLeasesFreed(calls: map<nat, Call>, after: map<nat, Call>, c: nat)
    requires SameElsewhere(calls, after, c)
    requires c in calls ==> !calls[c].Freeing?
    requires c in after ==> !after[c].Freeing?
    ensures forall id :: LeaseFreed(after, id) <==> LeaseFreed(calls, id)
  {
  }

  /** A step of one Connect that touches no stored peer moves no claim but its own. */
  lemma {:induction false} OnlyOwnClaimMoves(w: World, v: World, c: nat)
    requires v.peers == w.peers && SameElsewhere(w.calls, v.calls, c)
    requires c in w.calls ==> !w.calls[c].Freeing?
    requires c in v.calls ==> !v.calls[c].Freeing?
    ensures forall b | b != ByCall(c) :: ClaimOf(v, b) == ClaimOf(w, b)
  {
  }

  lemma {:induction false} TakeKeepsBacking(w: World, c: nat, d: Device)
    requires Backed(w) && KeyOf(d) in w.pools && Sound(w.pools[KeyOf(d)])
    requires c in w.calls && w.calls[c] == Checked(d)
    ensures Backed(AfterTake(w, c, d))
  {
    hide Backed, Sound, Allocated;
    var v := AfterTake(w, c, d);
    var (q, lease) := Allocated(w.pools[KeyOf(d)], d.user);
    OnlyOwnClaimMoves(w, v, c);
    if lease.None? {
      ExhaustedExactlyWhenFull(w.pools[KeyOf(d)], d.user);
      ClaimsUnmoved(w, v);
    } else {
      AllocateSound(w.pools[KeyOf(d)], d.user);
      ClaimMade(w, v, ByCall(c), Claim(KeyOf(d), lease.value.addr, d.user), q);
    }
  }

  lemma {:induction false} BackerIsGranted(w: World, b: Backer)
    requires Backed(w) && ClaimOf(w, b).Some?
    ensures Granted(w.pools, ClaimOf(w, b).value)
  {
  }

  lemma {:induction false} UndoKeepsBacking(w: World, c: nat, d: Device, lease: Prefix)
    requires Backed(w) && c in w.calls && w.calls[c] == Undoing(d, lease) && KeyOf(d) in w.pools
    ensures Backed(AfterUndo(w, c, d, lease))
  {
    hide Backed;
    var v := AfterUndo(w, c, d, lease);
    var claim := Claim(KeyOf(d), lease.addr, d.user);
    assert ClaimOf(w, ByCall(c)) == Some(claim);
    BackerIsGranted(w, ByCall(c));
    OnlyOwnClaimMoves(w, v, c);
    ClaimDropped(w, v, ByCall(c), claim, v.pools[KeyOf(d)]);
  }

  lemma {:induction false} SaveKeepsBacking(w: World, c: nat, d: Device, lease: Prefix, p: Peer)
    requires Backed(w) && CallsStored(w.pools.Keys, w.peers, w.calls)
    requires c in w.calls && w.calls[c] == Holding(d, lease)
    requires p.id !in w.peers && p == NewPeer(d, lease, p.id, p.createdAt)
    ensures Backed(AfterSave(w, c, p))
  {
    hide Backed;
    var v := AfterSave(w, c, p);
    SameLeasesFreed(w.calls, v.calls, c);
    assert !LeaseFreed(w.calls, p.id);
    ClaimPassed(w, v, ByCall(c), ByPeer(p.id));
  }

  /** A Revoke's release moves no claim but that of its peer, which it ends. */
  lemma {:induction false} FreeMovesClaim(w: World, c: nat, p: Peer)
    requires c in w.calls && w.calls[c] == Found(p)
    ensures ClaimOf(AfterFree(w, c, p), ByPeer(p.id)) == None
    ensures forall b | b != ByPeer(p.id) :: ClaimOf(AfterFree(w, c, p), b) == ClaimOf(w, b)
  {
    var v := AfterFree(w, c, p);
    assert v.calls[c].Freeing? && LeaseFreed(v.calls, p.id);
    forall id | id != p.id ensures LeaseFreed(v.calls, id) <==> LeaseFreed(w.calls, id) {
      assert forall e | e in v.calls && e != c :: e in w.calls && v.calls[e] == w.calls[e];
      assert forall e | e in w.calls && e != c :: e in v.calls && v.calls[e] == w.calls[e];
    }
  }

  /** The release of a Revoke is safe: its peer still claims the lease, or nobody of that user holds the address. */
  ghost predicate SafeToFree(w: World, p: Peer) {
    ClaimOf(w, ByPeer(p.id)).Some? || !Granted(w.pools, Claim(PeerKey(p), p.address.addr, p.user))
  }

  lemma {:induction false} ReleaseOfOthersLease(w: World, c: nat, p: Peer)
    requires HeldIsClaimed(w) && c in w.calls && w.calls[c] == Found(p) && !SafeToFree(w, p)
    ensures !ClaimsGranted(AfterFree(w, c, p))
  {
    var v := AfterFree(w, c, p);
    var claim := Claim(PeerKey(p), p.address.addr, p.user);
    FreeMovesClaim(w, c, p);
    hide ClaimOf;
    var b :| ClaimOf(w, b) == Some(claim);
    assert ClaimOf(v, b) == Some(claim) && !Granted(v.pools, claim);
  }

  /** A Revoke's release keeps lease and peer agreement if and only if it is safe. */
  lemma {:induction false} FreeKeepsBackingExactlyWhenSafe(w: World, c: nat, p: Peer)
    requires Backed(w) && c in w.calls && w.calls[c] == Found(p)
    requires p.id in w.peers && w.peers[p.id].(active := true) == p && PeerKey(p) in w.pools
    ensures Backed(AfterFree(w, c, p)) <==> SafeToFree(w, p)
  {
    var v := AfterFree(w, c, p);
    var claim := Claim(PeerKey(p), p.address.addr, p.user);
    FreeMovesClaim(w, c, p);
    if ClaimOf(w, ByPeer(p.id)).Some? {
      BackerIsGranted(w, ByPeer(p.id));
      ClaimDropped(w, v, ByPeer(p.id), claim, v.pools[PeerKey(p)]);
    } else if Granted(w.pools, claim) {
      ReleaseOfOthersLease(w, c, p);
    } else {
      assert v.pools == w.pools;
      ClaimsUnmoved(w, v);
    }
  }

  /** With a Revoke to itself, the peer still claims its lease. */
  lemma {:induction false} FreeKeepsBacking(w: World, c: nat, p: Peer)
    requires Backed(w) && CallsValid(w.pools.Keys, w.peers, w.calls) && PeersPooled(w.pools.Keys, w.peers)
    requires c in w.calls && w.calls[c] == Found(p)
    ensures Backed(AfterFree(w, c, p))
  {
    hide Backed;
    assert !LeaseFreed(w.calls, p.id);
    FreeKeepsBackingExactlyWhenSafe(w, c, p);
  }

  lemma {:induction false} DeactivateKeepsBacking(w: World, c: nat, p: Peer)
    requires Backed(w) && CallsStored(w.pools.Keys, w.peers, w.calls)
    requires c in w.calls && w.calls[c] == Freeing(p)
    ensures Backed(AfterDeactivate(w, c, p))
  {
    hide Backed;
    var v := AfterDeactivate(w, c, p);
    assert LeaseFreed(w.calls, p.id);
    forall id | id != p.id ensures LeaseFreed(v.calls, id) <==> LeaseFreed(w.calls, id) {
      assert forall e | e in v.calls :: e in w.calls && v.calls[e] == w.calls[e];
      assert forall e | e in w.calls && e != c :: e in v.calls && v.calls[e] == w.calls[e];
    }
    ClaimsUnmoved(w, v);
  }

  /** The remaining steps move one call between phases that claim the same address, or none. */
  lemma {:induction false} PhaseKeepsBacking(w: World, v: World, c: nat)
    requires Backed(w) && v.pools == w.pools && v.peers == w.peers && SameElsewhere(w.calls, v.calls, c)
    requires c in w.calls ==> !w.calls[c].Freeing?
    requires c in v.calls ==> !v.calls[c].Freeing?
    requires ClaimOf(v, ByCall(c)) == ClaimOf(w, ByCall(c))
    ensures Backed(v)
  {
    OnlyOwnClaimMoves(w, v, c);
    ClaimsUnmoved(w, v);
  }

  lemma {:induction false} PhaseStepKeepsBacking(w: World, s: Step)
    requires Backed(w) && Possible(w, s)
    requires s.SetSubscription? || s.ReadSubscription? || s.CheckDevices? || s.FailSave? || s.FindPeer?
    ensures Backed(Execute(w, s))
  {
    if s.SetSubscription? {
      ClaimsUnmoved(w, Execute(w, s));
    } else {
      PhaseKeepsBacking(w, Execute(w, s), s.call);
    }
  }

  lemma {:induction false} LeaseStepKeepsBacking(w: World, s: Step)
    requires Backed(w) && CallsStored(w.pools.Keys, w.peers, w.calls) && PoolsSound(w.pools) && Possible(w, s)
    requires s.TakeLease? || s.SavePeer? || s.UndoLease? || s.Deactivate?
    ensures Backed(Execute(w, s))
  {
    hide Backed, CallsStored, Sound, AfterTake, AfterSave, AfterUndo, AfterDeactivate;
    var call := w.calls[s.call];
    match s
    case TakeLease(c) => TakeKeepsBacking(w, c, call.device);
    case SavePeer(c, id, now) =>
      SaveKeepsBacking(w, c, call.device, call.lease, NewPeer(call.device, call.lease, id, now));
    case UndoLease(c) => UndoKeepsBacking(w, c, call.device, call.lease);
    case Deactivate(c) => DeactivateKeepsBacking(w, c, call.peer);
  }

  lemma {:induction false} PoolReplaced(pools: map<PoolKey, Pool>, k: PoolKey, q: Pool)
    requires PoolsSound(pools) && k in pools && Sound(q) && q.base == pools[k].base
    ensures PoolsSound(pools[k := q]) && pools[k := q].Keys == pools.Keys
  {
  }

  lemma {:induction false} StepKeepsPools(w: World, s: Step)
    requires PoolsSound(w.pools) && Possible(w, s)
    ensures PoolsSound(Execute(w, s).pools) && Execute(w, s).pools.Keys == w.pools.Keys
  {
    hide Sound, Allocated, Released, ActiveOf, MatchesOf;
    match s
    case TakeLease(c) =>
      var d := w.calls[c].device;
      AllocateSound(w.pools[KeyOf(d)], d.user);
      PoolReplaced(w.pools, KeyOf(d), Allocated(w.pools[KeyOf(d)], d.user).0);
    case UndoLease(c) =>
      var d, lease := w.calls[c].device, w.calls[c].lease;
      ReleaseSound(w.pools[KeyOf(d)], lease, d.user);
      PoolReplaced(w.pools, KeyOf(d), Released(w.pools[KeyOf(d)], lease, d.user).0);
    case FreeLease(c) =>
      var p := w.calls[c].peer;
      if PeerKey(p) in w.pools {
        ReleaseSound(w.pools[PeerKey(p)], p.address, p.user);
        PoolReplaced(w.pools, PeerKey(p), Released(w.pools[PeerKey(p)], p.address, p.user).0);
      }
    case _ =>
  }

  lemma {:induction false} StepKeepsPeers(w: World, s: Step)
    requires PeersPooled(w.pools.Keys, w.peers) && CallsStored(w.pools.Keys, w.peers, w.calls) && Possible(w, s)
    ensures PeersPooled(w.pools.Keys, Execute(w, s).peers)
  {
    hide Allocated, Released, ActiveOf, MatchesOf;
  }

  lemma {:induction false} CallEnded(keys: set<PoolKey>, peers: map<string, Peer>, calls: map<nat, Call>, c: nat)
    requires CallsValid(keys, peers, calls)
    ensures CallsValid(keys, peers, calls - {c})
  {
  }

  lemma {:induction false} ConnectStarts(keys: set<PoolKey>, peers: map<string, Peer>, calls: map<nat, Call>, c: nat, d: Device)
    requires CallsValid(keys, peers, calls) && c !in calls && KeyOf(d) in keys
    ensures CallsValid(keys, peers, calls[c := Subscribed(d)])
  {
  }

  lemma {:induction false} ConnectMoves(keys: set<PoolKey>, peers: map<string, Peer>, calls: map<nat, Call>, c: nat, call: Call)
    requires CallsValid(keys, peers, calls) && c in calls && !IsRevoke(calls[c])
    requires !IsRevoke(call) && call.device == calls[c].device
    ensures CallsValid(keys, peers, calls[c := call])
  {
  }

  lemma {:induction false} PeerSaved(keys: set<PoolKey>, peers: map<string, Peer>, calls: map<nat, Call>, p: Peer)
    requires CallsValid(keys, peers, calls) && p.id !in peers
    ensures CallsValid(keys, peers[p.id := p], calls)
  {
  }

  lemma {:induction false} RevokeStarts(keys: set<PoolKey>, peers: map<string, Peer>, calls: map<nat, Call>, c: nat, p: Peer)
    requires CallsValid(keys, peers, calls) && c !in calls
    requires p.active && p.id in peers && peers[p.id] == p
    requires forall e | e in calls && IsRevoke(calls[e]) :: calls[e].peer.id != p.id
    ensures CallsValid(keys, peers, calls[c := Found(p)])
  {
  }

  lemma {:induction false} RevokeMoves(keys: set<PoolKey>, peers: map<string, Peer>, calls: map<nat, Call>, c: nat)
    requires CallsValid(keys, peers, calls) && c in calls && IsRevoke(calls[c])
    ensures CallsValid(keys, peers, calls[c := Freeing(calls[c].peer)])
  {
  }

  lemma {:induction false} PeerDeactivated(keys: set<PoolKey>, peers: map<string, Peer>, calls: map<nat, Call>, c: nat)
    requires CallsValid(keys, peers, calls) && c in calls && IsRevoke(calls[c])
    ensures var p := calls[c].peer;
            p.id in peers && peers[p.id] == p && CallsValid(keys, peers[p.id := p.(active := false)], calls - {c})
  {
  }

  lemma {:induction false} StepKeepsCalls(w: World, s: Step)
    requires PeersPooled(w.pools.Keys, w.peers) && CallsValid(w.pools.Keys, w.peers, w.calls) && Enabled(w, s)
    ensures CallsValid(w.pools.Keys, Execute(w, s).peers, Execute(w, s).calls)
  {
    hide CallsValid, Allocated, Released, MatchesOf;
    var keys := w.pools.Keys;
    match s
    case SetSubscription(_, _) =>
    case ReadSubscription(c, d) =>
      if KeyOf(d) in w.pools { ConnectStarts(keys, w.peers, w.calls, c, d); }
    case CheckDevices(c) =>
      ConnectMoves(keys, w.peers, w.calls, c, Checked(w.calls[c].device));
      CallEnded(keys, w.peers, w.calls, c);
    case TakeLease(c) =>
      var lease := Allocated(w.pools[KeyOf(w.calls[c].device)], w.calls[c].device.user).1;
      if lease.Some? { ConnectMoves(keys, w.peers, w.calls, c, Holding(w.calls[c].device, lease.value)); }
      CallEnded(keys, w.peers, w.calls, c);
    case SavePeer(c, id, now) =>
      PeerSaved(keys, w.peers, w.calls, NewPeer(w.calls[c].device, w.calls[c].lease, id, now));
      CallEnded(keys, Execute(w, s).peers, w.calls, c);
    case FailSave(c) => ConnectMoves(keys, w.peers, w.calls, c, Undoing(w.calls[c].device, w.calls[c].lease));
    case UndoLease(c) => CallEnded(keys, w.peers, w.calls, c);
    case FindPeer(c, user, id) =>
      if id in ActiveOf(w.peers, user) { RevokeStarts(keys, w.peers, w.calls, c, w.peers[id]); }
    case FreeLease(c) => RevokeMoves(keys, w.peers, w.calls, c);
    case Deactivate(c) => PeerDeactivated(keys, w.peers, w.calls, c);
  }

  lemma {:induction false} StepKeepsConsistency(w: World, s: Step)
    requires Consistent(w) && Enabled(w, s)
    ensures Consistent(Execute(w, s))
    ensures Execute(w, s).pools.Keys == w.pools.Keys
  {
    hide Backed, PoolsSound, PeersPooled, CallsValid, CallsStored, ActiveOf;
    ValidCallsAreStored(w.pools.Keys, w.peers, w.calls);
    StepKeepsPools(w, s);
    StepKeepsPeers(w, s);
    StepKeepsCalls(w, s);
    if s.FreeLease? {
      FreeKeepsBacking(w, s.call, w.calls[s.call].peer);
    } else if s.TakeLease? || s.SavePeer? || s.UndoLease? || s.Deactivate? {
      LeaseStepKeepsBacking(w, s);
    } else {
      PhaseStepKeepsBacking(w, s);
    }
  }

  lemma {:induction false} ValidCallsAreStored(keys: set<PoolKey>, peers: map<string, Peer>, calls: map<nat, Call>)
    requires CallsValid(keys, peers, calls)
    ensures CallsStored(keys, peers, calls)
  {
  }

  // ---- Whole runs ----

  /** A service just started: new allocators for some of the known pools, no devices, no calls. */
  ghost predicate Init(w: World) {
    && w.peers == map[] && w.calls == map[]
    && forall k | k in w.pools :: KnownPool(k) && w.pools[k] == NewPool(Block(k))
  }

  /** Any run of the service. */
  ghost predicate Run(ws: seq<World>, steps: seq<Step>) {
    && |ws| == |steps| + 1 && Init(ws[0])
    && forall i | 0 <= i < |steps| :: Possible(ws[i], steps[i]) && ws[i + 1] == Execute(ws[i], steps[i])
  }

  /** A run in which one Revoke finds a given peer at a time. */
  ghost predicate Behaviour(ws: seq<World>, steps: seq<Step>) {
    Run(ws, steps) && forall i | 0 <= i < |steps| :: Enabled(ws[i], steps[i])
  }

  lemma {:induction false} InitConsistent(w: World)
    requires Init(w)
    ensures Consistent(w)
  {
    forall k | k in w.pools ensures Sound(w.pools[k]) { NewPoolSound(Block(k)); }
    assert forall b :: ClaimOf(w, b) == None;
  }

  /** In every interleaving each held address is backed by exactly one stored active peer or Connect
      in flight, and every pool is in a reachable allocator state. */
  lemma {:induction false} EveryHeldAddressHasOneBacker(ws: seq<World>, steps: seq<Step>, i: nat)
    requires Behaviour(ws, steps) && i < |ws|
    ensures Backed(ws[i]) && PoolsSound(ws[i].pools)
    ensures Consistent(ws[i])
  {
    if i == 0 {
      InitConsistent(ws[0]);
    } else {
      EveryHeldAddressHasOneBacker(ws, steps, i - 1);
      StepKeepsConsistency(ws[i - 1], steps[i - 1]);
    }
  }

  // ---- Without the hypothesis on Revokes ----

  ghost predicate WellFormed(w: World) {
    && PeersPooled(w.pools.Keys, w.peers)
    && CallsStored(w.pools.Keys, w.peers, w.calls)
    && PoolsSound(w.pools)
  }

  ghost predicate SafeStep(w: World, s: Step)
    requires Possible(w, s)
  {
    s.FreeLease? ==> SafeToFree(w, w.calls[s.call].peer)
  }

  lemma {:induction false} CallStaysStored(w: World, s: Step, call: Call)
    requires Possible(w, s) && CallStored(w.pools.Keys, w.peers, call)
    ensures CallStored(w.pools.Keys, Execute(w, s).peers, call)
  {
    hide Allocated, Released, MatchesOf, ActiveOf;
  }

  lemma {:induction false} NewPhaseIsStored(w: World, s: Step)
    requires PeersPooled(w.pools.Keys, w.peers) && CallsStored(w.pools.Keys, w.peers, w.calls) && Possible(w, s)
    requires !s.SetSubscription? && s.call in Execute(w, s).calls
    ensures CallStored(w.pools.Keys, w.peers, Execute(w, s).calls[s.call])
  {
    hide Allocated, Released, MatchesOf;
  }

  lemma {:induction false} StepKeepsCallsStored(w: World, s: Step)
    requires PeersPooled(w.pools.Keys, w.peers) && CallsStored(w.pools.Keys, w.peers, w.calls) && Possible(w, s)
    ensures CallsStored(w.pools.Keys, Execute(w, s).peers, Execute(w, s).calls)
  {
    hide Allocated, Released, MatchesOf, CallStored;
    forall call | CallStored(w.pools.Keys, w.peers, call)
      ensures CallStored(w.pools.Keys, Execute(w, s).peers, call)
    {
      CallStaysStored(w, s, call);
    }
    if !s.SetSubscription? && s.call in Execute(w, s).calls {
      NewPhaseIsStored(w, s);
    }
  }

  lemma {:induction false} StepKeepsWellFormed(w: World, s: Step)
    requires WellFormed(w) && Possible(w, s)
    ensures WellFormed(Execute(w, s))
  {
    hide PoolsSound, PeersPooled, CallsStored;
    StepKeepsPools(w, s);
    StepKeepsPeers(w, s);
    StepKeepsCallsStored(w, s);
  }

  /** Any step at all keeps agreement, except a release that is not safe. */
  lemma {:induction false} StepKeepsBackingExactlyWhenSafe(w: World, s: Step)
    requires WellFormed(w) && Backed(w) && Possible(w, s)
    ensures Backed(Execute(w, s)) <==> SafeStep(w, s)
  {
    if s.FreeLease? {
      hide Backed, SafeToFree;
      FreeKeepsBackingExactlyWhenSafe(w, s.call, w.calls[s.call].peer);
    } else {
      hide Backed, PoolsSound, PeersPooled, CallsStored;
      if s.TakeLease? || s.SavePeer? || s.UndoLease? || s.Deactivate? {
        LeaseStepKeepsBacking(w, s);
      } else {
        PhaseStepKeepsBacking(w, s);
      }
    }
  }

  lemma {:induction false} RunIsWellFormed(ws: seq<World>, steps: seq<Step>, i: nat)
    requires Run(ws, steps) && i < |ws|
    ensures WellFormed(ws[i])
  {
    if i == 0 {
      InitConsistent(ws[0]);
      ValidCallsAreStored(ws[0].pools.Keys, ws[0].peers, ws[0].calls);
    } else {
      RunIsWellFormed(ws, steps, i - 1);
      StepKeepsWellFormed(ws[i - 1], steps[i - 1]);
    }
  }

  /** Any run, with any number of Revokes of one peer, agrees throughout if and only if each release in
      it is safe at its moment. */
  lemma {:induction false} RunAgreesExactlyWhenReleasesAreSafe(ws: seq<World>, steps: seq<Step>, n: nat)
    requires Run(ws, steps) && n < |ws|
    ensures (forall i | 0 <= i <= n :: Backed(ws[i])) <==> (forall i | 0 <= i < n :: SafeStep(ws[i], steps[i]))
  {
    hide Backed, SafeStep, Possible, Execute;
    if n == 0 {
      InitBacked(ws[0]);
    } else {
      RunAgreesExactlyWhenReleasesAreSafe(ws, steps, n - 1);
      RunIsWellFormed(ws, steps, n - 1);
      assert ws[n - 1 + 1] == Execute(ws[n - 1], steps[n - 1]);
      if Backed(ws[n - 1]) {
        StepKeepsBackingExactlyWhenSafe(ws[n - 1], steps[n - 1]);
      }
    }
  }

  lemma {:induction false} InitBacked(w: World)
    requires Init(w)
    ensures Backed(w)
  {
    InitConsistent(w);
  }

  // ---- Quiescent states ----

  ghost predicate ActiveOn(w: World, k: PoolKey, id: string) {
    id in w.peers && w.peers[id].active && PeerKey(w.peers[id]) == k
  }

  /** held of every pool is the address-to-user map of the active peers on it. */
  ghost predicate HeldIsActivePeers(w: World) {
    forall k | k in w.pools ::
      && (forall id | ActiveOn(w, k, id) ::
            var p := w.peers[id];
            p.address.addr in w.pools[k].held && w.pools[k].held[p.address.addr] == p.user)
      && (forall a | a in w.pools[k].held ::
            exists id :: ActiveOn(w, k, id) && w.peers[id].address.addr == a)
      && (forall id, jd | ActiveOn(w, k, id) && ActiveOn(w, k, jd)
                          && w.peers[id].address.addr == w.peers[jd].address.addr :: id == jd)
  }

  /** With no call in flight the claims are those of the active peers. */
  lemma {:induction false} QuiescentClaims(w: World, b: Backer)
    requires w.calls == map[]
    ensures ClaimOf(w, b) ==
            if b.ByPeer? && b.id in w.peers && w.peers[b.id].active
            then Some(Claim(PeerKey(w.peers[b.id]), w.peers[b.id].address.addr, w.peers[b.id].user)) else None
  {
  }

  lemma {:induction false} ActivePeerHolds(w: World, k: PoolKey, id: string)
    requires ClaimsGranted(w) && w.calls == map[] && ActiveOn(w, k, id)
    ensures k in w.pools && w.peers[id].address.addr in w.pools[k].held
    ensures w.pools[k].held[w.peers[id].address.addr] == w.peers[id].user
  {
    QuiescentClaims(w, ByPeer(id));
    hide ClaimOf;
  }

  lemma {:induction false} HolderIsActive(w: World, k: PoolKey, a: Addr)
    requires HeldIsClaimed(w) && w.calls == map[] && k in w.pools && a in w.pools[k].held
    ensures exists id :: ActiveOn(w, k, id) && w.peers[id].address.addr == a
  {
  }

  lemma {:induction false} HolderIsUnique(w: World, k: PoolKey, id: string, jd: string)
    requires ClaimsDistinct(w) && w.calls == map[] && ActiveOn(w, k, id) && ActiveOn(w, k, jd)
    requires w.peers[id].address.addr == w.peers[jd].address.addr
    ensures id == jd
  {
    QuiescentClaims(w, ByPeer(id));
    QuiescentClaims(w, ByPeer(jd));
    hide ClaimOf;
    assert ByPeer(id) == ByPeer(jd);
  }

  lemma {:induction false} QuiescentHeldIsActive(w: World)
    requires Backed(w) && w.calls == map[]
    ensures HeldIsActivePeers(w)
  {
    hide ClaimsGranted, ClaimsDistinct, HeldIsClaimed;
    forall k, id | k in w.pools && ActiveOn(w, k, id)
      ensures var p := w.peers[id];
              p.address.addr in w.pools[k].held && w.pools[k].held[p.address.addr] == p.user
    {
      ActivePeerHolds(w, k, id);
    }
    forall k, a | k in w.pools && a in w.pools[k].held
      ensures exists id :: ActiveOn(w, k, id) && w.peers[id].address.addr == a
    {
      HolderIsActive(w, k, a);
    }
    forall k, id, jd | k in w.pools && ActiveOn(w, k, id) && ActiveOn(w, k, jd)
                       && w.peers[id].address.addr == w.peers[jd].address.addr
      ensures id == jd
    {
      HolderIsUnique(w, k, id, jd);
    }
  }

  /** Whenever no call is in flight, the allocators and the store agree. */
  lemma {:induction false} QuiescentStatesAgree(ws: seq<World>, steps: seq<Step>, i: nat)
    requires Behaviour(ws, steps) && i < |ws| && ws[i].calls == map[]
    ensures HeldIsActivePeers(ws[i])
  {
    EveryHeldAddressHasOneBacker(ws, steps, i);
    QuiescentHeldIsActive(ws[i]);
  }

  /** Why one Revoke per peer at a time: a lease is owned by its user, so a second release of the same
      address also succeeds on the lease the user was given in between. */
  lemma {:induction false} SecondReleaseFreesTheNextLease(p: Pool, lease: Prefix, user: string)
    requires lease.addr in p.held && p.held[lease.addr] == user
    ensures var freed := Released(p, lease, user).0;
            var (reused, next) := Allocated(freed, user);
            next == Some(Prefix(lease.addr, p.base.bits)) && Released(reused, lease, user).1
  {
  }

  // ---- The device limit ----

  function ConnectsOf(w: World, user: string): set<nat> {
    set c | c in w.calls && !IsRevoke(w.calls[c]) && w.calls[c].device.user == user
  }

  /** The user's Connects that have passed the device check and may still save a peer. */
  function PassedOf(w: World, user: string): set<nat> {
    set c | c in w.calls && (w.calls[c].Checked? || w.calls[c].Holding? || w.calls[c].Undoing?)
            && w.calls[c].device.user == user
  }

  ghost predicate WithinLimit(w: World, user: string, k: nat) {
    |ActiveOf(w.peers, user)| + |PassedOf(w, user)| <= MAX_PEERS_PER_USER - 1 + k
  }

  lemma {:induction false} NewPeerCounts(peers: map<string, Peer>, p: Peer, user: string)
    requires p.id !in peers && p.active
    ensures |ActiveOf(peers[p.id := p], user)| == |ActiveOf(peers, user)| + if p.user == user then 1 else 0
  {
    assert ActiveOf(peers[p.id := p], user) == ActiveOf(peers, user) + if p.user == user then {p.id} else {};
  }

  lemma {:induction false} SaveKeepsLimit(w: World, c: nat, p: Peer, user: string, k: nat)
    requires c in w.calls && w.calls[c].Holding? && p.user == w.calls[c].device.user
    requires p.id !in w.peers && p.active && WithinLimit(w, user, k)
    ensures WithinLimit(AfterSave(w, c, p), user, k)
  {
    NewPeerCounts(w.peers, p, user);
    assert PassedOf(AfterSave(w, c, p), user) == PassedOf(w, user) - if p.user == user then {c} else {};
  }

  lemma {:induction false} CheckKeepsLimit(w: World, s: Step, user: string, k: nat)
    requires Possible(w, s) && s.CheckDevices? && WithinLimit(w, user, k)
    requires |ConnectsOf(Execute(w, s), user)| <= k
    ensures WithinLimit(Execute(w, s), user, k)
  {
    var v := Execute(w, s);
    if s.call in v.calls && w.calls[s.call].device.user == user {
      SubsetSize(PassedOf(v, user), ConnectsOf(v, user));
    } else {
      assert PassedOf(v, user) == PassedOf(w, user);
    }
  }

  lemma {:induction false} OtherStepKeepsLimit(w: World, s: Step, user: string, k: nat)
    requires Possible(w, s) && !s.SavePeer? && !s.CheckDevices? && WithinLimit(w, user, k)
    ensures WithinLimit(Execute(w, s), user, k)
  {
    var v := Execute(w, s);
    SubsetSize(ActiveOf(v.peers, user), ActiveOf(w.peers, user));
    SubsetSize(PassedOf(v, user), PassedOf(w, user));
  }

  lemma {:induction false} StepKeepsLimit(w: World, s: Step, user: string, k: nat)
    requires Possible(w, s) && WithinLimit(w, user, k)
    requires |ConnectsOf(Execute(w, s), user)| <= k
    ensures WithinLimit(Execute(w, s), user, k)
  {
    if s.SavePeer? {
      var call := w.calls[s.call];
      SaveKeepsLimit(w, s.call, NewPeer(call.device, call.lease, s.id, s.now), user, k);
    } else if s.CheckDevices? {
      CheckKeepsLimit(w, s, user, k);
    } else {
      OtherStepKeepsLimit(w, s, user, k);
    }
  }

  /** If at most k of a user's Connects are ever in flight together, the user never has more than
      MAX_PEERS_PER_USER - 1 + k active peers, in any interleaving. */
  lemma {:induction false} DeviceLimit(ws: seq<World>, steps: seq<Step>, i: nat, user: string, k: nat)
    requires Run(ws, steps) && i < |ws|
    requires forall j | 0 <= j < |ws| :: |ConnectsOf(ws[j], user)| <= k
    ensures |ActiveOf(ws[i].peers, user)| <= MAX_PEERS_PER_USER - 1 + k
    ensures WithinLimit(ws[i], user, k)
  {
    if i == 0 {
      assert ActiveOf(ws[0].peers, user) == {} && PassedOf(ws[0], user) == {};
    } else {
      DeviceLimit(ws, steps, i - 1, user, k);
      assert ws[i - 1 + 1] == Execute(ws[i - 1], steps[i - 1]);
      StepKeepsLimit(ws[i - 1], steps[i - 1], user, k);
    }
  }
}
