/** What the answer of a whole Connect or Revoke means: exactly when each answer is given, and exactly what
    has then changed. */
module PeerAnswers {
  import opened Basics
  import opened Netalloc
  import opened NetallocRuns
  import opened Store
  import opened Leases
  import opened PeerCalls

  // ---- The conditions a caller of Connect can check beforehand ----

  ghost predicate Subscription(w: World, q: Request) {
    q.device.user in w.subs && w.subs[q.device.user] in {"active", "trialing"}
  }

  ghost predicate PoolKnown(w: World, q: Request) {
    PoolKey(q.device.node, q.device.stealth) in w.pools
  }

  ghost predicate DeviceKnown(w: World, q: Request) {
    exists id :: id in w.peers
      && w.peers[id].active && w.peers[id].user == q.device.user && w.peers[id].node == q.device.node
      && w.peers[id].stealth == q.device.stealth && w.peers[id].publicKey == q.device.key
  }

  ghost predicate DevicesLeft(w: World, q: Request) {
    |set id | id in w.peers && w.peers[id].active && w.peers[id].user == q.device.user| < 3
  }

  ghost predicate AddressesLeft(w: World, q: Request)
    requires PoolKnown(w, q)
  {
    |w.pools[PoolKey(q.device.node, q.device.stealth)].held| < 253
  }

  lemma {:induction false} DeviceIsMatch(w: World, q: Request)
    ensures DeviceKnown(w, q) <==> MatchesOf(w.peers, q.device) != {}
  {
    if DeviceKnown(w, q) {
      var id :| id in w.peers
        && w.peers[id].active && w.peers[id].user == q.device.user && w.peers[id].node == q.device.node
        && w.peers[id].stealth == q.device.stealth && w.peers[id].publicKey == q.device.key;
      assert id in MatchesOf(w.peers, q.device);
    }
    if MatchesOf(w.peers, q.device) != {} {
      var id :| id in MatchesOf(w.peers, q.device);
      assert id in w.peers && w.peers[id].active && w.peers[id].user == q.device.user;
    }
  }

  lemma {:induction false} DevicesLeftCounts(w: World, q: Request)
    ensures DevicesLeft(w, q) <==> |ActiveOf(w.peers, q.device.user)| < 3
  {
    assert ActiveOf(w.peers, q.device.user)
        == set id | id in w.peers && w.peers[id].active && w.peers[id].user == q.device.user;
  }

  /** The pool is asked exactly when every condition but the last holds. */
  lemma {:induction false} PoolIsAsked(w: World, q: Request)
    ensures TakesLease(w, q) <==>
            q.keyOk && Subscription(w, q) && PoolKnown(w, q) && !DeviceKnown(w, q) && DevicesLeft(w, q)
  {
    DeviceIsMatch(w, q);
    DevicesLeftCounts(w, q);
    hide DeviceKnown, DevicesLeft, MatchesOf, ActiveOf;
  }

  lemma {:induction false} LeaseAnswers(w: World, q: Request, v: World, r: Result)
    requires PoolsSound(w.pools) && PoolKnown(w, q) && LeasePost(w, q, v, r) && q.id !in w.peers
    ensures r == Failed(PoolExhausted) <==> !AddressesLeft(w, q)
    ensures r == Failed(StoreFailure) <==> AddressesLeft(w, q) && q.saveFails
    ensures r.Connected? <==> AddressesLeft(w, q) && !q.saveFails
    ensures v.peers == if r.Connected? then w.peers[q.id := r.peer] else w.peers
    ensures r.Connected? || r == Failed(PoolExhausted) || r == Failed(StoreFailure)
  {
    hide Sound, Allocated, Released;
    ExhaustedExactlyWhenFull(w.pools[KeyOf(q.device)], q.device.user);
    HeldAtMost253(w.pools[KeyOf(q.device)]);
  }

  lemma {:induction false} HeldAtMost253(p: Pool)
    requires Sound(p)
    ensures |p.held| <= 253
  {
  }

  lemma {:induction false} EarlyAnswers(w: World, q: Request, v: World, r: Result)
    requires ConnectPost(w, q, v, r) && !TakesLease(w, q)
    ensures v == w
    ensures r == if !q.keyOk then Failed(BadPublicKey)
                 else if !Subscription(w, q) then Failed(NotSubscribed)
                 else if !PoolKnown(w, q) then Failed(NodeUnknown)
                 else if DeviceKnown(w, q) then r
                 else Failed(TooManyPeers)
    ensures r.Connected? <==> q.keyOk && Subscription(w, q) && PoolKnown(w, q) && DeviceKnown(w, q)
  {
    DeviceIsMatch(w, q);
    hide DeviceKnown, MatchesOf, ActiveOf;
  }

  /** The answer of a whole Connect, decided by the request and the state before it: the first condition
      that fails names the error, and with none failing the user has the device afterwards. */
  lemma {:induction false} ConnectAnswersExactly(w: World, q: Request, v: World, r: Result)
    requires Steady(w) && ConnectPost(w, q, v, r) && q.id !in w.peers
    ensures r == Failed(BadPublicKey) <==> !q.keyOk
    ensures r == Failed(NotSubscribed) <==> q.keyOk && !Subscription(w, q)
    ensures r == Failed(NodeUnknown) <==> q.keyOk && Subscription(w, q) && !PoolKnown(w, q)
    ensures r == Failed(TooManyPeers) <==>
            q.keyOk && Subscription(w, q) && PoolKnown(w, q) && !DeviceKnown(w, q) && !DevicesLeft(w, q)
    ensures r == Failed(PoolExhausted) <==>
            && q.keyOk && Subscription(w, q) && PoolKnown(w, q) && !DeviceKnown(w, q) && DevicesLeft(w, q)
            && !AddressesLeft(w, q)
    ensures r == Failed(StoreFailure) <==>
            && q.keyOk && Subscription(w, q) && PoolKnown(w, q) && !DeviceKnown(w, q) && DevicesLeft(w, q)
            && AddressesLeft(w, q) && q.saveFails
    ensures r.Connected? && v.peers == w.peers <==>
            q.keyOk && Subscription(w, q) && PoolKnown(w, q) && DeviceKnown(w, q)
    ensures v.peers != w.peers <==>
            && q.keyOk && Subscription(w, q) && PoolKnown(w, q) && !DeviceKnown(w, q) && DevicesLeft(w, q)
            && AddressesLeft(w, q) && !q.saveFails
    ensures v.peers != w.peers ==> r.Connected? && v.peers == w.peers[q.id := r.peer]
  {
    PoolIsAsked(w, q);
    if TakesLease(w, q) {
      assert LeasePost(w, q, v, r);
      LeaseAnswers(w, q, v, r);
      hide TakesLease, LeasePost, Steady, DeviceKnown, DevicesLeft;
      if r.Connected? { assert q.id in v.peers; }
    } else {
      EarlyAnswers(w, q, v, r);
      hide TakesLease, ConnectPost, Steady, DeviceKnown, DevicesLeft;
    }
  }

  // ---- What a new peer is ----

  lemma {:induction false} LeaseHasPoolBits(p: Pool, user: string)
    ensures Allocated(p, user).1.Some? ==> Allocated(p, user).1.value.bits == p.base.bits
  {
  }

  /** A new peer is the requested device, on an address of its pool that was free and is now held for its
      user; no other address and no other pool changes. */
  lemma {:induction false} NewPeerHoldsFreshAddress(w: World, q: Request, v: World, r: Result)
    requires Steady(w) && ConnectPost(w, q, v, r) && q.id !in w.peers && v.peers != w.peers
    ensures r.Connected? && PoolKnown(w, q)
    ensures var p := r.peer; var k := PoolKey(q.device.node, q.device.stealth);
            && p == Peer(q.id, q.device.user, q.device.node, q.device.stealth, p.address, q.device.key, q.now, true)
            && p.address.bits == 24
            && v.pools.Keys == w.pools.Keys
            && p.address.addr !in w.pools[k].held
            && v.pools[k].held == w.pools[k].held[p.address.addr := q.device.user]
            && (forall j | j in w.pools && j != k :: v.pools[j] == w.pools[j])
  {
    PoolIsAsked(w, q);
    ConnectAnswersExactly(w, q, v, r);
    var k := KeyOf(q.device);
    hide Sound, Allocated, Released, DeviceKnown, DevicesLeft;
    AllocateSound(w.pools[k], q.device.user);
    LeaseHasPoolBits(w.pools[k], q.device.user);
    assert Block(k).bits == 24;
  }

  /** The addresses of each pool, by node and protocol. */
  lemma {:induction false} PeerAddressNamesPool(w: World, id: string)
    requires Steady(w) && id in w.peers && w.peers[id].active
    ensures var p := w.peers[id];
            && (p.node == "sgp" || p.node == "fsn") && 2 <= p.address.addr.d <= 254
            && p.address.addr == Addr(10, if p.node == "sgp" then 20 else 21, if p.stealth then 1 else 0, p.address.addr.d)
  {
    ActivePeerHoldsAddress(w, id);
    var k := PeerKey(w.peers[id]);
    assert IsHost(Block(k), Extent(w.pools[k]), w.peers[id].address.addr);
  }

  // ---- Revoke ----

  ghost predicate RevokeEffect(w: World, v: World, id: string)
    requires id in w.peers
  {
    var p := w.peers[id];
    var k := PoolKey(p.node, p.stealth);
    && id in v.peers && !v.peers[id].active && v.peers[id].(active := true) == p
    && v.peers.Keys == w.peers.Keys && (forall jd | jd in w.peers && jd != id :: v.peers[jd] == w.peers[jd])
    && k in w.pools && v.pools.Keys == w.pools.Keys
    && p.address.addr in w.pools[k].held && v.pools[k].held == w.pools[k].held - {p.address.addr}
    && (forall j | j in w.pools && j != k :: v.pools[j] == w.pools[j])
    && v.subs == w.subs
  }

  lemma {:induction false} ActivePeerHoldsAddress(w: World, id: string)
    requires Steady(w) && id in w.peers && w.peers[id].active
    ensures var p := w.peers[id]; var k := PoolKey(p.node, p.stealth);
            k in w.pools && p.address.addr in w.pools[k].held && w.pools[k].held[p.address.addr] == p.user
  {
    hide Sound;
    ActivePeerHolds(w, PeerKey(w.peers[id]), id);
  }

  lemma {:induction false} RevokeHasEffect(w: World, user: string, id: string)
    requires id in ActiveOf(w.peers, user)
    requires var p := w.peers[id]; var k := PoolKey(p.node, p.stealth);
             k in w.pools && p.address.addr in w.pools[k].held && w.pools[k].held[p.address.addr] == user
    ensures RevokeEffect(w, Revoked(w, user, id).0, id)
  {
  }

  /** A Revoke succeeds exactly on the user's own active peer; then that peer is inactive and its address
      free, and nothing else has changed. Otherwise it answers not found and changes nothing. */
  lemma {:induction false} RevokeAnswersExactly(w: World, user: string, id: string)
    requires Steady(w)
    ensures var (v, r) := Revoked(w, user, id);
            && (r == Done <==> id in w.peers && w.peers[id].active && w.peers[id].user == user)
            && (r != Done ==> r == Failed(NotFound) && v == w)
            && (r == Done ==> RevokeEffect(w, v, id))
  {
    if id in ActiveOf(w.peers, user) {
      ActivePeerHoldsAddress(w, id);
      hide Steady, RevokeEffect, Released;
      RevokeHasEffect(w, user, id);
    }
  }

  /** After a successful Revoke the next Connect on the pool, by anyone, is given that address. */
  lemma {:induction false} RevokedAddressIsNext(w: World, user: string, id: string, other: string)
    requires Steady(w) && Revoked(w, user, id).1 == Done
    ensures var v := Revoked(w, user, id).0; var p := w.peers[id]; var k := PoolKey(p.node, p.stealth);
            k in v.pools && Allocated(v.pools[k], other).1.Some?
            && Allocated(v.pools[k], other).1.value.addr == p.address.addr
  {
    ActivePeerHoldsAddress(w, id);
    hide Steady;
  }
}
