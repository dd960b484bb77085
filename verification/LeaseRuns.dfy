/** Runs of the lease protocol that show where its guarantees end: two Revokes of one peer, and the
    device limit with several Connects in flight. */
module LeaseRuns {
  import opened Basics
  import opened Counting
  import opened Netalloc
  import opened NetallocRuns
  import opened Store
  import opened Leases

  /** Some run ends in w and numbers its calls below n, so never has more than n in flight. */
  ghost predicate Reached(w: World, n: nat) {
    exists ws, steps :: Run(ws, steps) && ws[|steps|] == w && NumberedBelow(ws, n)
  }

  ghost predicate NumberedBelow(ws: seq<World>, n: nat) {
    forall w, c | w in ws && c in w.calls :: c < n
  }

  lemma {:induction false} StartReached(w: World, n: nat)
    requires Init(w)
    ensures Reached(w, n)
  {
    assert Run([w], []) && [w][0] == w && NumberedBelow([w], n);
  }

  lemma {:induction false} StepReached(w: World, s: Step, n: nat)
    requires Reached(w, n) && Possible(w, s) && forall c | c in Execute(w, s).calls :: c < n
    ensures Reached(Execute(w, s), n)
  {
    var v := Execute(w, s);
    var ws, steps :| Run(ws, steps) && ws[|steps|] == w && NumberedBelow(ws, n);
    hide Execute, Possible, Init;
    assert Run(ws + [v], steps + [s]);
    assert (ws + [v])[|steps + [s]|] == v;
  }

  // ---- A whole Connect beside other calls ----

  /** The device passes every check of a Connect. */
  ghost predicate Welcome(w: World, d: Device) {
    && Entitled(w.subs, d.user) && KeyOf(d) in w.pools
    && MatchesOf(w.peers, d) == {} && |ActiveOf(w.peers, d.user)| < MAX_PEERS_PER_USER
  }

  function AfterConnect(w: World, d: Device, lease: Prefix, id: string): World
    requires KeyOf(d) in w.pools
  {
    w.(pools := w.pools[KeyOf(d) := Allocated(w.pools[KeyOf(d)], d.user).0],
       peers := w.peers[id := NewPeer(d, lease, id, 0)])
  }

  lemma {:induction false} CheckReached(w: World, c: nat, d: Device, n: nat)
    requires Reached(w, n) && c !in w.calls && Welcome(w, d)
    requires c < n && forall e | e in w.calls :: e < n
    ensures Reached(w.(calls := w.calls[c := Checked(d)]), n)
  {
    hide Reached;
    var w1 := w.(calls := w.calls[c := Subscribed(d)]);
    assert Execute(w, ReadSubscription(c, d)) == w1;
    StepReached(w, ReadSubscription(c, d), n);
    assert w1.calls[c := Checked(d)] == w.calls[c := Checked(d)];
    assert Execute(w1, CheckDevices(c)) == w.(calls := w.calls[c := Checked(d)]);
    StepReached(w1, CheckDevices(c), n);
  }

  lemma {:induction false} SaveReached(w: World, c: nat, d: Device, lease: Prefix, id: string, n: nat)
    requires Reached(w, n) && c in w.calls && w.calls[c] == Checked(d) && KeyOf(d) in w.pools && id !in w.peers
    requires Allocated(w.pools[KeyOf(d)], d.user).1 == Some(lease)
    requires forall e | e in w.calls :: e < n
    ensures Reached(AfterConnect(w, d, lease, id).(calls := w.calls - {c}), n)
  {
    hide Reached, Allocated;
    var w1 := Execute(w, TakeLease(c));
    StepReached(w, TakeLease(c), n);
    assert w1.calls - {c} == w.calls - {c};
    assert Execute(w1, SavePeer(c, id, 0)) == AfterConnect(w, d, lease, id).(calls := w.calls - {c});
    StepReached(w1, SavePeer(c, id, 0), n);
  }

  lemma {:induction false} ConnectReached(w: World, c: nat, d: Device, lease: Prefix, id: string, n: nat)
    requires Reached(w, n) && c !in w.calls && Welcome(w, d) && id !in w.peers
    requires Allocated(w.pools[KeyOf(d)], d.user).1 == Some(lease)
    requires c < n && forall e | e in w.calls :: e < n
    ensures Reached(AfterConnect(w, d, lease, id), n)
  {
    hide Reached, Allocated;
    CheckReached(w, c, d, n);
    var w1 := w.(calls := w.calls[c := Checked(d)]);
    SaveReached(w1, c, d, lease, id, n);
    assert w1.calls - {c} == w.calls;
    assert AfterConnect(w1, d, lease, id).(calls := w.calls) == AfterConnect(w, d, lease, id);
  }

  // ---- Two Revokes of one peer ----

  /** Quiescent, yet the active peers of two users hold one address. */
  ghost predicate SharedAddress(w: World, id: string, jd: string) {
    && w.calls == map[] && id in w.peers && jd in w.peers
    && w.peers[id].active && w.peers[jd].active && w.peers[id].user != w.peers[jd].user
    && PeerKey(w.peers[id]) == PeerKey(w.peers[jd]) && w.peers[id].address == w.peers[jd].address
  }

  lemma {:induction false} SharedAddressIsDisagreement(w: World, id: string, jd: string)
    requires SharedAddress(w, id, jd)
    ensures !Backed(w) && (PeerKey(w.peers[id]) in w.pools ==> !HeldIsActivePeers(w))
  {
    QuiescentClaims(w, ByPeer(id));
    QuiescentClaims(w, ByPeer(jd));
    hide ClaimOf;
    var k := PeerKey(w.peers[id]);
    assert ActiveOn(w, k, id) && ActiveOn(w, k, jd);
    assert ByPeer(id) != ByPeer(jd);
  }

  function ReleasedTwice(p: Pool, lease: Prefix, user: string): Pool {
    Released(Allocated(Released(p, lease, user).0, user).0, lease, user).0
  }

  /** The address goes around: free, leased to the same user, freed again, leased to another. */
  lemma {:induction false} AddressGoesAround(p: Pool, lease: Prefix, user: string, other: string)
    requires lease.addr in p.held && p.held[lease.addr] == user && lease.bits == p.base.bits
    ensures Allocated(Released(p, lease, user).0, user).1 == Some(lease)
    ensures Allocated(ReleasedTwice(p, lease, user), other).1 == Some(lease)
  {
    SecondReleaseFreesTheNextLease(p, lease, user);
  }

  lemma {:induction false} BothFound(w: World, p: Peer)
    requires Reached(w, 3) && w.calls == map[] && p.id in ActiveOf(w.peers, p.user) && w.peers[p.id] == p
    ensures Reached(w.(calls := map[0 := Found(p), 1 := Found(p)]), 3)
  {
    hide Reached;
    var w1 := w.(calls := map[0 := Found(p)]);
    assert Execute(w, FindPeer(0, p.user, p.id)) == w1;
    StepReached(w, FindPeer(0, p.user, p.id), 3);
    var w2 := w.(calls := map[0 := Found(p), 1 := Found(p)]);
    assert w1.calls[1 := Found(p)] == w2.calls;
    assert Execute(w1, FindPeer(1, p.user, p.id)) == w2;
    StepReached(w1, FindPeer(1, p.user, p.id), 3);
  }

  /** The rest of a Revoke: the release and the deactivation. */
  function AfterRevoke(w: World, c: nat, p: Peer): World
    requires PeerKey(p) in w.pools && p.id in w.peers
  {
    World(w.pools[PeerKey(p) := Released(w.pools[PeerKey(p)], p.address, p.user).0],
          w.peers[p.id := w.peers[p.id].(active := false)], w.subs, w.calls - {c})
  }

  lemma {:induction false} RevokeReached(w: World, c: nat, p: Peer, n: nat)
    requires Reached(w, n) && c in w.calls && w.calls[c] == Found(p) && forall e | e in w.calls :: e < n
    requires PeerKey(p) in w.pools && p.id in w.peers && w.peers[p.id].user == p.user
    ensures Reached(AfterRevoke(w, c, p), n)
  {
    hide Reached, Released;
    StepReached(w, FreeLease(c), n);
    var w1 := Execute(w, FreeLease(c));
    assert w1.calls - {c} == w.calls - {c};
    assert Execute(w1, Deactivate(c)) == AfterRevoke(w, c, p);
    StepReached(w1, Deactivate(c), n);
  }

  lemma {:induction false} AllocationIsHeld(p: Pool, lease: Prefix, user: string)
    requires Sound(p) && Allocated(p, user).1 == Some(lease)
    ensures var q := Allocated(p, user).0;
            lease.addr in q.held && q.held[lease.addr] == user && lease.bits == q.base.bits
  {
    AllocateSound(p, user);
  }

  function Inactive(p: Peer): Peer {
    p.(active := false)
  }

  /** The device connects, two Revokes find it, and one of them finishes. */
  lemma {:induction false} OneRevokeFinishes(w: World, d: Device, lease: Prefix)
    requires Reached(w, 3) && w.calls == map[] && w.peers == map[] && Welcome(w, d)
    requires Allocated(w.pools[KeyOf(d)], d.user).1 == Some(lease)
    ensures var p := NewPeer(d, lease, "first", 0);
            var freed := Released(Allocated(w.pools[KeyOf(d)], d.user).0, lease, d.user).0;
            Reached(World(w.pools[KeyOf(d) := freed], map["first" := Inactive(p)], w.subs, map[1 := Found(p)]), 3)
  {
    hide Reached, Released, Allocated;
    var p := NewPeer(d, lease, "first", 0);
    var w1 := AfterConnect(w, d, lease, "first");
    ConnectReached(w, 0, d, lease, "first", 3);
    assert w1.peers == map["first" := p];
    BothFound(w1, p);
    var w2 := w1.(calls := map[0 := Found(p), 1 := Found(p)]);
    RevokeReached(w2, 0, p, 3);
    var w3 := AfterRevoke(w2, 0, p);
    assert w3.calls == map[1 := Found(p)] && w3.peers == map["first" := Inactive(p)];
    assert w3.pools == w.pools[KeyOf(d) := w3.pools[KeyOf(d)]];
  }

  /** The device connects again and gets the same address; then the other Revoke finishes. */
  lemma {:induction false} OtherRevokeFinishes(w: World, d: Device, lease: Prefix, p: Peer)
    requires Reached(w, 3) && p == NewPeer(d, lease, "first", 0)
    requires w.calls == map[1 := Found(p)] && w.peers == map["first" := Inactive(p)]
    requires Entitled(w.subs, d.user) && KeyOf(d) in w.pools
    requires Allocated(w.pools[KeyOf(d)], d.user).1 == Some(lease)
    ensures var q := NewPeer(d, lease, "second", 0);
            var freed := Released(Allocated(w.pools[KeyOf(d)], d.user).0, lease, d.user).0;
            Reached(World(w.pools[KeyOf(d) := freed], map["first" := Inactive(p), "second" := q], w.subs, map[]), 3)
  {
    hide Reached, Released, Allocated;
    assert ActiveOf(w.peers, d.user) == {};
    ConnectReached(w, 0, d, lease, "second", 3);
    var w1 := AfterConnect(w, d, lease, "second");
    RevokeReached(w1, 1, p, 3);
    var w2 := AfterRevoke(w1, 1, p);
    assert w2.calls == map[] && w2.pools == w.pools[KeyOf(d) := w2.pools[KeyOf(d)]];
    assert w2.peers == map["first" := Inactive(p), "second" := NewPeer(d, lease, "second", 0)];
  }

  /** In the end the second peer is active and its address is free. */
  lemma {:induction false} SecondPeerLosesItsLease(w: World, d: Device, lease: Prefix)
    requires Reached(w, 3) && w.calls == map[] && w.peers == map[] && Welcome(w, d)
    requires Sound(w.pools[KeyOf(d)]) && Allocated(w.pools[KeyOf(d)], d.user).1 == Some(lease)
    ensures var k := KeyOf(d);
            var pool := ReleasedTwice(Allocated(w.pools[k], d.user).0, lease, d.user);
            var p, q := NewPeer(d, lease, "first", 0), NewPeer(d, lease, "second", 0);
            Reached(World(w.pools[k := pool], map["first" := Inactive(p), "second" := q], w.subs, map[]), 3)
  {
    hide Reached, Released, Allocated, Sound;
    var k := KeyOf(d);
    var p := NewPeer(d, lease, "first", 0);
    var taken := Allocated(w.pools[k], d.user).0;
    AllocationIsHeld(w.pools[k], lease, d.user);
    AddressGoesAround(taken, lease, d.user, d.user);
    OneRevokeFinishes(w, d, lease);
    var w1 := World(w.pools[k := Released(taken, lease, d.user).0], map["first" := Inactive(p)], w.subs, map[1 := Found(p)]);
    OtherRevokeFinishes(w1, d, lease, p);
    assert w1.pools[k := ReleasedTwice(taken, lease, d.user)] == w.pools[k := ReleasedTwice(taken, lease, d.user)];
  }

  lemma {:induction false} SubscribersReached(w: World, user: string, other: string, n: nat)
    requires Init(w)
    ensures Reached(w.(subs := w.subs[user := "active"][other := "active"]), n)
  {
    hide Reached;
    StartReached(w, n);
    StepReached(w, SetSubscription(user, "active"), n);
    StepReached(w.(subs := w.subs[user := "active"]), SetSubscription(other, "active"), n);
  }

  lemma {:induction false} NewPoolLeases(base: Prefix, user: string) returns (lease: Prefix)
    ensures Sound(NewPool(base)) && Allocated(NewPool(base), user).1 == Some(lease)
  {
    NewPoolSound(base);
    ExhaustedExactlyWhenFull(NewPool(base), user);
    lease := Allocated(NewPool(base), user).1.value;
  }

  /** Every service can reach a quiescent state in which two users hold one address, when two Revokes of
      one peer overlap: the hypothesis of the agreement theorems is needed. */
  lemma {:induction false} TwoRevokesShareAnAddress(w: World, k: PoolKey, user: string, other: string)
    requires Init(w) && k in w.pools && user != other
    ensures exists v :: Reached(v, 3) && v.pools.Keys == w.pools.Keys && SharedAddress(v, "second", "third") && !Backed(v)
  {
    hide Reached, Released, Allocated, Backed, Sound;
    var d := Device(user, k.node, k.stealth, "key");
    var e := Device(other, k.node, k.stealth, "key");
    var w1 := w.(subs := w.subs[user := "active"][other := "active"]);
    SubscribersReached(w, user, other, 3);
    var lease := NewPoolLeases(Block(k), user);
    assert ActiveOf(w1.peers, user) == {};
    SecondPeerLosesItsLease(w1, d, lease);
    var taken := Allocated(w.pools[k], user).0;
    AllocationIsHeld(w.pools[k], lease, user);
    AddressGoesAround(taken, lease, user, other);
    var p, q := NewPeer(d, lease, "first", 0), NewPeer(d, lease, "second", 0);
    var w2 := World(w1.pools[k := ReleasedTwice(taken, lease, user)], map["first" := Inactive(p), "second" := q], w1.subs, map[]);
    assert ActiveOf(w2.peers, other) == {};
    ConnectReached(w2, 0, e, lease, "third", 3);
    var v := AfterConnect(w2, e, lease, "third");
    assert SharedAddress(v, "second", "third");
    SharedAddressIsDisagreement(v, "second", "third");
  }

  // ---- The device limit with several Connects in flight ----

  /** The numbers below n. */
  function Numbers(n: nat): (s: set<nat>)
    ensures |s| == n && forall c: nat :: c in s <==> c < n
  {
    if n == 0 then {} else Numbers(n - 1) + {n - 1}
  }

  /** The calls i, ..., n - 1, all past the device check of one device. */
  function Waiting(d: Device, i: nat, n: nat): map<nat, Call> {
    map c | c in Numbers(n) && i <= c :: Checked(d)
  }

  /** The pool has room for so many more leases. */
  ghost predicate Room(w: World, k: PoolKey, n: nat) {
    k in w.pools && Sound(w.pools[k]) && |w.pools[k].held| + n <= HOSTS
  }

  lemma {:induction false} RoomLeases(w: World, k: PoolKey, n: nat, user: string) returns (lease: Prefix)
    requires Room(w, k, n + 1)
    ensures Allocated(w.pools[k], user).1 == Some(lease)
    ensures Room(w.(pools := w.pools[k := Allocated(w.pools[k], user).0]), k, n)
  {
    AllocateSound(w.pools[k], user);
    ExhaustedExactlyWhenFull(w.pools[k], user);
    lease := Allocated(w.pools[k], user).1.value;
    assert Allocated(w.pools[k], user).0.held.Keys == w.pools[k].held.Keys + {lease.addr};
  }

  lemma {:induction false} WaitingGrows(d: Device, j: nat)
    ensures Waiting(d, 0, 0) == map[]
    ensures Waiting(d, 0, j)[j := Checked(d)] == Waiting(d, 0, j + 1)
    ensures forall c :: c in Waiting(d, 0, j) ==> c < j
  {
  }

  /** Each of n Connects passes the device check before any of them saves. */
  lemma {:induction false} AllCheck(w: World, d: Device, j: nat, n: nat)
    requires Reached(w, n) && w.calls == map[] && Welcome(w, d) && j <= n
    ensures Reached(w.(calls := Waiting(d, 0, j)), n)
  {
    hide Reached, Waiting, MatchesOf, ActiveOf, Entitled;
    if j == 0 {
      WaitingGrows(d, 0);
      assert w.(calls := map[]) == w;
    } else {
      AllCheck(w, d, j - 1, n);
      WaitingGrows(d, j - 1);
      CheckReached(w.(calls := Waiting(d, 0, j - 1)), j - 1, d, n);
    }
  }

  /** Then each of them takes a lease and saves a peer. */
  lemma {:induction false} AllSave(w: World, d: Device, i: nat, n: nat) returns (v: World)
    requires Reached(w, n) && i <= n && w.calls == Waiting(d, i, n) && Room(w, KeyOf(d), n - i)
    ensures Reached(v, n) && v.calls == map[]
    ensures |ActiveOf(v.peers, d.user)| == |ActiveOf(w.peers, d.user)| + n - i
    decreases n - i
  {
    hide Reached, Allocated, Sound;
    if i == n {
      v := w;
    } else {
      var id := FreshString(w.peers.Keys);
      var lease := RoomLeases(w, KeyOf(d), n - i - 1, d.user);
      SaveReached(w, i, d, lease, id, n);
      var w1 := AfterConnect(w, d, lease, id).(calls := w.calls - {i});
      assert w1.calls == Waiting(d, i + 1, n);
      NewPeerCounts(w.peers, NewPeer(d, lease, id, 0), d.user);
      v := AllSave(w1, d, i + 1, n);
    }
  }

  /** A whole Connect of a device nobody has. */
  lemma {:induction false} DeviceAdded(w: World, d: Device, id: string, m: nat, n: nat) returns (v: World)
    requires Reached(w, n) && n > 0 && w.calls == map[] && Welcome(w, d) && Room(w, KeyOf(d), m + 1)
    requires id !in w.peers
    ensures Reached(v, n) && v.calls == map[] && v.subs == w.subs && Room(v, KeyOf(d), m)
    ensures exists p: Peer :: p.id == id && p.user == d.user && p.publicKey == d.key && p.active && v.peers == w.peers[id := p]
  {
    hide Reached, Allocated, Sound;
    var lease := RoomLeases(w, KeyOf(d), m, d.user);
    ConnectReached(w, 0, d, lease, id, n);
    v := AfterConnect(w, d, lease, id);
    assert v.peers == w.peers[id := NewPeer(d, lease, id, 0)];
  }

  lemma {:induction false} TwoDevicesReached(w: World, k: PoolKey, user: string, m: nat, n: nat) returns (v: World)
    requires Init(w) && k in w.pools && n > 0 && m + 2 <= HOSTS
    ensures Reached(v, n) && v.calls == map[] && Room(v, k, m)
    ensures |ActiveOf(v.peers, user)| == 2 && Welcome(v, Device(user, k.node, k.stealth, "third"))
  {
    hide Reached, Allocated, Sound;
    var d, e := Device(user, k.node, k.stealth, "first"), Device(user, k.node, k.stealth, "second");
    SubscribersReached(w, user, user, n);
    var w1 := w.(subs := w.subs[user := "active"][user := "active"]);
    NewPoolSound(Block(k));
    assert ActiveOf(w1.peers, user) == {};
    var w2 := DeviceAdded(w1, d, "first", m + 1, n);
    assert ActiveOf(w2.peers, user) == {"first"};
    v := DeviceAdded(w2, e, "second", m, n);
    assert ActiveOf(v.peers, user) == {"first", "second"};
  }

  /** What Reached says about calls in flight. */
  lemma {:induction false} ReachedWithin(v: World, n: nat) returns (ws: seq<World>, steps: seq<Step>)
    requires Reached(v, n)
    ensures Run(ws, steps) && ws[|steps|] == v
    ensures forall i, user | 0 <= i < |ws| :: |ConnectsOf(ws[i], user)| <= n
  {
    ws, steps :| Run(ws, steps) && ws[|steps|] == v && NumberedBelow(ws, n);
    hide Run;
    forall i, user | 0 <= i < |ws| ensures |ConnectsOf(ws[i], user)| <= n {
      assert ws[i] in ws;
      SubsetSize(ConnectsOf(ws[i], user), Numbers(n));
    }
  }

  /** The bound of the device limit is met: with n Connects in flight a user can get
      MAX_PEERS_PER_USER - 1 + n devices, as long as the pool has addresses for them. */
  lemma {:induction false} DeviceLimitIsMet(w: World, k: PoolKey, user: string, n: nat)
    returns (ws: seq<World>, steps: seq<Step>)
    requires Init(w) && k in w.pools && 0 < n && n + 2 <= HOSTS
    ensures Run(ws, steps) && forall i | 0 <= i < |ws| :: |ConnectsOf(ws[i], user)| <= n
    ensures ws[|steps|].calls == map[] && |ActiveOf(ws[|steps|].peers, user)| == MAX_PEERS_PER_USER - 1 + n
  {
    hide Reached, Sound, Allocated, Run;
    var d := Device(user, k.node, k.stealth, "third");
    var w1 := TwoDevicesReached(w, k, user, n, n);
    AllCheck(w1, d, n, n);
    var v := AllSave(w1.(calls := Waiting(d, 0, n)), d, 0, n);
    ws, steps := ReachedWithin(v, n);
  }
}
