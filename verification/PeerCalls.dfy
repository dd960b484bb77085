/** Connect and Revoke as whole calls, and what every sequence of whole calls keeps. */
module PeerCalls {
  import opened Basics
  import opened Counting
  import opened Netalloc
  import opened NetallocRuns
  import opened Store
  import opened Leases

  datatype Error =
    | BadPublicKey | NotSubscribed | NodeUnknown | TooManyPeers | PoolExhausted | StoreFailure | NotFound

  datatype Result = Connected(peer: Peer) | Done | Failed(error: Error)

  /** A Connect request: the device, whether its key decodes to 32 bytes, the identifier and the time a
      new peer would get, and whether the store refuses to save it. */
  datatype Request = Request(device: Device, keyOk: bool, id: string, now: int, saveFails: bool)

  /** The request passes every check and reaches the allocator. */
  ghost predicate TakesLease(w: World, q: Request) {
    && q.keyOk && Entitled(w.subs, q.device.user) && KeyOf(q.device) in w.pools
    && MatchesOf(w.peers, q.device) == {} && |ActiveOf(w.peers, q.device.user)| < MAX_PEERS_PER_USER
  }

  /** Connect once its checks have passed: no lease, a lease given back, or a new peer. */
  ghost predicate LeasePost(w: World, q: Request, v: World, r: Result)
    requires KeyOf(q.device) in w.pools
  {
    var d, k := q.device, KeyOf(q.device);
    var (pool, lease) := Allocated(w.pools[k], d.user);
    if lease.None? then v == w.(pools := w.pools[k := pool]) && r == Failed(PoolExhausted)
    else if q.saveFails then
      v == w.(pools := w.pools[k := Released(pool, lease.value, d.user).0]) && r == Failed(StoreFailure)
    else
      var p := NewPeer(d, lease.value, q.id, q.now);
      v == w.(pools := w.pools[k := pool], peers := w.peers[q.id := p]) && r == Connected(p)
  }

  /** One whole Connect from w to v answering r; with several matching peers any of them may be returned. */
  ghost predicate ConnectPost(w: World, q: Request, v: World, r: Result) {
    var d, k := q.device, KeyOf(q.device);
    if !q.keyOk then v == w && r == Failed(BadPublicKey)
    else if !Entitled(w.subs, d.user) then v == w && r == Failed(NotSubscribed)
    else if k !in w.pools then v == w && r == Failed(NodeUnknown)
    else if MatchesOf(w.peers, d) != {} then
      v == w && exists id :: id in MatchesOf(w.peers, d) && r == Connected(w.peers[id])
    else if |ActiveOf(w.peers, d.user)| >= MAX_PEERS_PER_USER then v == w && r == Failed(TooManyPeers)
    else LeasePost(w, q, v, r)
  }

  /** One whole Revoke. */
  function Revoked(w: World, user: string, id: string): (World, Result) {
    if id !in ActiveOf(w.peers, user) then (w, Failed(NotFound))
    else
      var p := w.peers[id];
      var k := PeerKey(p);
      (w.(pools := if k in w.pools then w.pools[k := Released(w.pools[k], p.address, user).0] else w.pools,
          peers := w.peers[id := p.(active := false)]), Done)
  }

  datatype Op = Connect(request: Request) | Revoke(user: string, id: string) | Subscribe(user: string, state: string)

  /** A whole call from w to v answering r; identifiers of new peers are fresh. */
  ghost predicate Call(w: World, op: Op, v: World, r: Result) {
    match op
    case Connect(q) => q.id !in w.peers && ConnectPost(w, q, v, r)
    case Revoke(user, id) => (v, r) == Revoked(w, user, id)
    case Subscribe(user, state) => v == w.(subs := w.subs[user := state]) && r == Done
  }

  // ---- Whole calls are uninterrupted runs of steps ----

  ghost predicate Reaches(w: World, steps: seq<Step>, v: World)
    decreases |steps|
  {
    if steps == [] then v == w
    else Enabled(w, steps[0]) && Reaches(Execute(w, steps[0]), steps[1..], v)
  }

  lemma {:induction false} ReachesKeepsConsistency(w: World, steps: seq<Step>, v: World)
    requires Consistent(w) && Reaches(w, steps, v)
    ensures Consistent(v)
    decreases |steps|
  {
    if steps != [] {
      StepKeepsConsistency(w, steps[0]);
      ReachesKeepsConsistency(Execute(w, steps[0]), steps[1..], v);
    }
  }

  lemma {:induction false} ReachFrom(w: World, s: Step, rest: seq<Step>, v: World)
    requires Enabled(w, s) && Reaches(Execute(w, s), rest, v)
    ensures Reaches(w, [s] + rest, v)
  {
  }

  /** The world with one Connect in flight, as call 0. */
  function InCall(w: World, call: Call): World {
    w.(calls := map[0 := call])
  }

  lemma {:induction false} ReachChecked(w: World, d: Device, rest: seq<Step>, v: World)
    requires w.calls == map[] && Entitled(w.subs, d.user) && KeyOf(d) in w.pools
    requires MatchesOf(w.peers, d) == {} && |ActiveOf(w.peers, d.user)| < MAX_PEERS_PER_USER
    requires Reaches(InCall(w, Checked(d)), rest, v)
    ensures Reaches(w, [ReadSubscription(0, d)] + ([CheckDevices(0)] + rest), v)
  {
    var w1 := InCall(w, Subscribed(d));
    assert Execute(w, ReadSubscription(0, d)) == w1;
    assert w1.calls[0 := Checked(d)] == map[0 := Checked(d)];
    assert Execute(w1, CheckDevices(0)) == InCall(w, Checked(d));
    ReachFrom(w1, CheckDevices(0), rest, v);
    ReachFrom(w, ReadSubscription(0, d), [CheckDevices(0)] + rest, v);
  }

  /** The steps of one Connect, as call 0: none when the key is bad, else those that serve the request. */
  predicate ConnectSteps(q: Request, steps: seq<Step>) {
    if !q.keyOk then steps == []
    else
      && |steps| > 0 && steps[0] == ReadSubscription(0, q.device)
      && forall i | 1 <= i < |steps| ::
           || steps[i] == CheckDevices(0) || steps[i] == TakeLease(0)
           || (q.saveFails && (steps[i] == FailSave(0) || steps[i] == UndoLease(0)))
           || (!q.saveFails && steps[i] == SavePeer(0, q.id, q.now))
  }

  /** The steps of one Revoke, as call 0. */
  predicate RevokeSteps(user: string, id: string, steps: seq<Step>) {
    && |steps| > 0 && steps[0] == FindPeer(0, user, id)
    && forall i | 1 <= i < |steps| :: steps[i] == FreeLease(0) || steps[i] == Deactivate(0)
  }

  /** From the lease on. */
  lemma {:induction false} LeaseSteps(w: World, q: Request, v: World, r: Result) returns (rest: seq<Step>)
    requires w.calls == map[] && q.id !in w.peers && TakesLease(w, q) && LeasePost(w, q, v, r)
    ensures Reaches(InCall(w, Checked(q.device)), [TakeLease(0)] + rest, v)
    ensures v.calls == map[]
    ensures rest == [] || rest == [FailSave(0), UndoLease(0)] || rest == [SavePeer(0, q.id, q.now)]
    ensures rest == [FailSave(0), UndoLease(0)] ==> q.saveFails
    ensures rest == [SavePeer(0, q.id, q.now)] ==> !q.saveFails
  {
    hide Allocated, Released, MatchesOf, ActiveOf;
    var d, k := q.device, KeyOf(q.device);
    var (pool, lease) := Allocated(w.pools[k], d.user);
    var w2 := InCall(w, Checked(d));
    var w3 := Execute(w2, TakeLease(0));
    if lease.None? {
      assert w3.calls == map[];
      rest := [];
    } else {
      assert w3 == InCall(w.(pools := w.pools[k := pool]), Holding(d, lease.value));
      if q.saveFails {
        var w4 := Execute(w3, FailSave(0));
        var w5 := Execute(w4, UndoLease(0));
        assert w5.calls == map[] && w5.pools == v.pools;
        ReachFrom(w4, UndoLease(0), [], v);
        ReachFrom(w3, FailSave(0), [UndoLease(0)], v);
        rest := [FailSave(0)] + [UndoLease(0)];
      } else {
        var w4 := Execute(w3, SavePeer(0, q.id, q.now));
        assert w4.calls == map[];
        ReachFrom(w3, SavePeer(0, q.id, q.now), [], v);
        rest := [SavePeer(0, q.id, q.now)] + [];
      }
    }
    ReachFrom(w2, TakeLease(0), rest, v);
  }

  /** The request that ends at its device check. */
  lemma {:induction false} RefusedAtCheck(w: World, d: Device)
    requires w.calls == map[] && Entitled(w.subs, d.user) && KeyOf(d) in w.pools
    requires MatchesOf(w.peers, d) != {} || |ActiveOf(w.peers, d.user)| >= MAX_PEERS_PER_USER
    ensures Reaches(w, [ReadSubscription(0, d), CheckDevices(0)], w)
  {
    var w1 := InCall(w, Subscribed(d));
    assert Execute(w, ReadSubscription(0, d)) == w1;
    assert w1.calls - {0} == map[];
    assert Execute(w1, CheckDevices(0)) == w;
    ReachFrom(w1, CheckDevices(0), [], w);
    ReachFrom(w, ReadSubscription(0, d), [CheckDevices(0)] + [], w);
    assert [ReadSubscription(0, d)] + ([CheckDevices(0)] + []) == [ReadSubscription(0, d), CheckDevices(0)];
  }

  /** Every whole Connect is what its own steps do, run to their end with nothing in between. */
  lemma {:induction false} ConnectIsSerialRun(w: World, q: Request, v: World, r: Result)
    requires w.calls == map[] && q.id !in w.peers && ConnectPost(w, q, v, r)
    ensures exists steps :: Reaches(w, steps, v) && ConnectSteps(q, steps)
    ensures v.calls == map[]
  {
    hide Allocated, Released, MatchesOf, ActiveOf, Reaches, LeasePost;
    var d := q.device;
    if !q.keyOk {
      NoSteps(w);
      assert ConnectSteps(q, []);
    } else if !Entitled(w.subs, d.user) || KeyOf(d) !in w.pools {
      NoSteps(w);
      ReachFrom(w, ReadSubscription(0, d), [], w);
      assert ConnectSteps(q, [ReadSubscription(0, d)] + []);
    } else if TakesLease(w, q) {
      var rest := LeaseSteps(w, q, v, r);
      ReachChecked(w, d, [TakeLease(0)] + rest, v);
      assert ConnectSteps(q, [ReadSubscription(0, d)] + ([CheckDevices(0)] + ([TakeLease(0)] + rest)));
    } else {
      RefusedAtCheck(w, d);
      assert ConnectSteps(q, [ReadSubscription(0, d), CheckDevices(0)]);
    }
  }

  lemma {:induction false} NoSteps(w: World)
    ensures Reaches(w, [], w)
  {
  }

  /** So is every whole Revoke. */
  lemma {:induction false} RevokeIsSerialRun(w: World, user: string, id: string)
    requires w.calls == map[] && KeyedById(w.peers)
    ensures exists steps :: Reaches(w, steps, Revoked(w, user, id).0) && RevokeSteps(user, id, steps)
    ensures Revoked(w, user, id).0.calls == map[]
  {
    var v := Revoked(w, user, id).0;
    if id in ActiveOf(w.peers, user) {
      var p := w.peers[id];
      var w1 := InCall(w, Found(p));
      assert Execute(w, FindPeer(0, user, id)) == w1;
      var w2 := Execute(w1, FreeLease(0));
      assert w2.calls == map[0 := Freeing(p)];
      var w3 := Execute(w2, Deactivate(0));
      assert w3.calls == map[] && w3 == v;
      ReachFrom(w2, Deactivate(0), [], v);
      ReachFrom(w1, FreeLease(0), [Deactivate(0)] + [], v);
      ReachFrom(w, FindPeer(0, user, id), [FreeLease(0)] + ([Deactivate(0)] + []), v);
      assert RevokeSteps(user, id, [FindPeer(0, user, id)] + ([FreeLease(0)] + ([Deactivate(0)] + [])));
    } else {
      ReachFrom(w, FindPeer(0, user, id), [], v);
      assert RevokeSteps(user, id, [FindPeer(0, user, id)] + []);
    }
  }

  // ---- What every whole call keeps ----

  /** No user has two active peers for the same device. */
  ghost predicate DevicesUnique(peers: map<string, Peer>) {
    forall id, jd | id in peers && jd in peers && peers[id].active && peers[jd].active
                    && peers[id].user == peers[jd].user && peers[id].node == peers[jd].node
                    && peers[id].stealth == peers[jd].stealth && peers[id].publicKey == peers[jd].publicKey
      :: id == jd
  }

  ghost predicate LimitsKept(peers: map<string, Peer>) {
    forall user :: |ActiveOf(peers, user)| <= MAX_PEERS_PER_USER
  }

  /** Between whole calls: nothing in flight, allocators and store agree, limits and uniqueness hold. */
  ghost predicate Steady(w: World) {
    && w.calls == map[]
    && Consistent(w)
    && LimitsKept(w.peers)
    && DevicesUnique(w.peers)
  }

  lemma {:induction false} CallKeepsConsistency(w: World, op: Op, v: World, r: Result)
    requires w.calls == map[] && Consistent(w) && Call(w, op, v, r)
    ensures Consistent(v) && v.calls == map[]
  {
    match op
    case Connect(q) =>
      ConnectIsSerialRun(w, q, v, r);
      var steps :| Reaches(w, steps, v);
      ReachesKeepsConsistency(w, steps, v);
    case Revoke(user, id) =>
      RevokeIsSerialRun(w, user, id);
      var steps :| Reaches(w, steps, v);
      ReachesKeepsConsistency(w, steps, v);
    case Subscribe(user, state) =>
      StepKeepsConsistency(w, SetSubscription(user, state));
  }

  lemma {:induction false} CallKeepsPeers(w: World, op: Op, v: World, r: Result)
    requires Call(w, op, v, r) && LimitsKept(w.peers) && DevicesUnique(w.peers)
    ensures LimitsKept(v.peers) && DevicesUnique(v.peers)
  {
    if op.Connect? && v.peers != w.peers {
      var d := op.request.device;
      assert r.peer == NewPeer(d, r.peer.address, op.request.id, op.request.now);
      forall user ensures |ActiveOf(v.peers, user)| <= MAX_PEERS_PER_USER {
        NewPeerCounts(w.peers, r.peer, user);
      }
      forall id | id in ActiveOf(w.peers, d.user) ensures !Matches(w.peers[id], d) {
        assert id !in MatchesOf(w.peers, d);
      }
    } else {
      forall user ensures |ActiveOf(v.peers, user)| <= MAX_PEERS_PER_USER {
        SubsetSize(ActiveOf(v.peers, user), ActiveOf(w.peers, user));
      }
    }
  }

  lemma {:induction false} CallKeepsSteady(w: World, op: Op, v: World, r: Result)
    requires Steady(w) && Call(w, op, v, r)
    ensures Steady(v)
  {
    CallKeepsConsistency(w, op, v, r);
    CallKeepsPeers(w, op, v, r);
  }

  // ---- What a caller can rely on ----

  lemma {:induction false} MatchIsUnique(w: World, d: Device, id: string, jd: string)
    requires DevicesUnique(w.peers) && id in MatchesOf(w.peers, d) && jd in MatchesOf(w.peers, d)
    ensures id == jd
  {
  }

  /** The user of a steady world has at most one match for a device, so the answer does not depend on
      the order in which the store lists peers. */
  lemma {:induction false} ConnectIsDeterministic(w: World, q: Request, v1: World, r1: Result, v2: World, r2: Result)
    requires Steady(w) && ConnectPost(w, q, v1, r1) && ConnectPost(w, q, v2, r2)
    ensures v1 == v2 && r1 == r2
  {
    hide Consistent, LimitsKept, Allocated, Released;
    forall id, jd | id in MatchesOf(w.peers, q.device) && jd in MatchesOf(w.peers, q.device) ensures id == jd {
      MatchIsUnique(w, q.device, id, jd);
    }
  }

  /** Releasing a lease straight after taking it restores the held map. */
  lemma {:induction false} RollbackRestoresHeld(p: Pool, user: string)
    requires Sound(p) && Allocated(p, user).1.Some?
    ensures Released(Allocated(p, user).0, Allocated(p, user).1.value, user).0.held == p.held
  {
  }

  lemma {:induction false} FailedLeaseChangesNothing(w: World, q: Request, v: World, r: Result)
    requires PoolsSound(w.pools) && KeyOf(q.device) in w.pools && LeasePost(w, q, v, r) && r.Failed?
    ensures v.peers == w.peers && v.pools.Keys == w.pools.Keys
    ensures forall k | k in w.pools :: v.pools[k].held == w.pools[k].held
  {
    hide Sound, Allocated, Released;
    var p := w.pools[KeyOf(q.device)];
    if Allocated(p, q.device.user).1.None? {
      ExhaustedExactlyWhenFull(p, q.device.user);
    } else {
      RollbackRestoresHeld(p, q.device.user);
    }
  }

  /** A Connect that fails, also after rolling its lease back, leaves every held map and all peers as
      they were. */
  lemma {:induction false} FailedConnectChangesNothing(w: World, q: Request, v: World, r: Result)
    requires Steady(w) && ConnectPost(w, q, v, r) && r.Failed?
    ensures v.peers == w.peers && v.pools.Keys == w.pools.Keys
    ensures forall k | k in w.pools :: v.pools[k].held == w.pools[k].held
  {
    if TakesLease(w, q) {
      FailedLeaseChangesNothing(w, q, v, r);
    }
  }

  function PeersOn(w: World, k: PoolKey): set<string> {
    set id | id in w.peers && w.peers[id].active && PeerKey(w.peers[id]) == k
  }

  function UsersOn(w: World, k: PoolKey): set<string> {
    set id | id in PeersOn(w, k) :: w.peers[id].user
  }

  /** A pool holds exactly as many addresses as it has active peers. */
  lemma {:induction false} HeldCountsPeers(w: World, k: PoolKey)
    requires Steady(w) && k in w.pools
    ensures |PeersOn(w, k)| == |w.pools[k].held|
  {
    QuiescentHeldIsActive(w);
    var addr := (id: string) => if id in w.peers then w.peers[id].address.addr else Addr(0, 0, 0, 0);
    assert forall id :: id in PeersOn(w, k) <==> ActiveOn(w, k, id);
    InjectiveImageSize(addr, PeersOn(w, k));
    assert Image(addr, PeersOn(w, k)) == w.pools[k].held.Keys;
  }

  lemma {:induction false} PeersPerUser(w: World, k: PoolKey)
    requires LimitsKept(w.peers)
    ensures |PeersOn(w, k)| <= MAX_PEERS_PER_USER * |UsersOn(w, k)|
  {
    var user := (id: string) => if id in w.peers then w.peers[id].user else "";
    var peers := PeersOn(w, k);
    forall u | u in Image(user, peers) ensures |Fibre(user, peers, u)| <= MAX_PEERS_PER_USER {
      SubsetSize(Fibre(user, peers, u), ActiveOf(w.peers, u));
    }
    FibreBound(user, peers, MAX_PEERS_PER_USER);
    assert Image(user, peers) == UsersOn(w, k);
  }

  /** Connect reports exhaustion only when the pool has 253 active peers of at least 85 users. */
  lemma {:induction false} ExhaustionNeeds85Users(w: World, q: Request, v: World)
    requires Steady(w) && ConnectPost(w, q, v, Failed(PoolExhausted))
    ensures |PeersOn(w, KeyOf(q.device))| == 253
    ensures |UsersOn(w, KeyOf(q.device))| >= 85
  {
    var k := KeyOf(q.device);
    assert Allocated(w.pools[k], q.device.user).1.None?;
    ExhaustedExactlyWhenFull(w.pools[k], q.device.user);
    HeldCountsPeers(w, k);
    PeersPerUser(w, k);
  }

  /** The blocks of different pools share no address. */
  lemma {:induction false} BlocksDisjoint(j: PoolKey, k: PoolKey, m: nat, n: nat, a: Addr)
    requires KnownPool(j) && KnownPool(k)
    requires IsHost(Block(j), m, a) && IsHost(Block(k), n, a)
    ensures j == k
  {
  }

  /** Active peers have different addresses, whatever their pools, and never .0, .1 or .255. */
  lemma {:induction false} AddressesDistinct(w: World, id: string, jd: string)
    requires Steady(w) && id in w.peers && jd in w.peers && w.peers[id].active && w.peers[jd].active
    ensures 2 <= w.peers[id].address.addr.d <= 254
    ensures w.peers[id].address.addr == w.peers[jd].address.addr ==> id == jd
  {
    QuiescentHeldIsActive(w);
    var j, k := PeerKey(w.peers[id]), PeerKey(w.peers[jd]);
    assert ActiveOn(w, j, id) && ActiveOn(w, k, jd);
    var a, b := w.peers[id].address.addr, w.peers[jd].address.addr;
    assert IsHost(Block(j), Extent(w.pools[j]), a) && IsHost(Block(k), Extent(w.pools[k]), b);
    if a == b {
      BlocksDisjoint(j, k, Extent(w.pools[j]), Extent(w.pools[k]), a);
    }
  }

  // ---- Runs of whole calls ----

  ghost predicate Calls(ws: seq<World>, ops: seq<Op>, rs: seq<Result>) {
    && |ws| == |ops| + 1 && |rs| == |ops| && Init(ws[0])
    && forall i | 0 <= i < |ops| :: Call(ws[i], ops[i], ws[i + 1], rs[i])
  }

  lemma {:induction false} CallsStaySteady(ws: seq<World>, ops: seq<Op>, rs: seq<Result>, i: nat)
    requires Calls(ws, ops, rs) && i < |ws|
    ensures Steady(ws[i])
  {
    if i == 0 {
      InitConsistent(ws[0]);
      forall user ensures |ActiveOf(ws[0].peers, user)| <= MAX_PEERS_PER_USER {
        assert ActiveOf(ws[0].peers, user) == {};
      }
    } else {
      CallsStaySteady(ws, ops, rs, i - 1);
      assert Call(ws[i - 1], ops[i - 1], ws[i - 1 + 1], rs[i - 1]);
      CallKeepsSteady(ws[i - 1], ops[i - 1], ws[i], rs[i - 1]);
    }
  }

  lemma {:induction false} PeerStays(w: World, op: Op, v: World, r: Result, p: Peer)
    requires Steady(w) && Call(w, op, v, r)
    requires p.id in w.peers && w.peers[p.id] == p && op != Revoke(p.user, p.id)
    ensures p.id in v.peers && v.peers[p.id] == p
  {
    hide Steady, Allocated, Released, MatchesOf;
    assert KeyedById(w.peers) by { SteadyKeyed(w); }
  }

  lemma {:induction false} SteadyKeyed(w: World)
    requires Steady(w)
    ensures KeyedById(w.peers)
  {
  }

  lemma {:induction false} PeerStaysUntilRevoked(
      ws: seq<World>, ops: seq<Op>, rs: seq<Result>, i: nat, k: nat, p: Peer)
    requires Calls(ws, ops, rs) && i <= k < |ws|
    requires p.id in ws[i].peers && ws[i].peers[p.id] == p
    requires forall j | i <= j < k :: ops[j] != Revoke(p.user, p.id)
    ensures p.id in ws[k].peers && ws[k].peers[p.id] == p
  {
    if i < k {
      PeerStaysUntilRevoked(ws, ops, rs, i, k - 1, p);
      CallsStaySteady(ws, ops, rs, k - 1);
      assert Call(ws[k - 1], ops[k - 1], ws[k - 1 + 1], rs[k - 1]);
      PeerStays(ws[k - 1], ops[k - 1], ws[k], rs[k - 1], p);
    }
  }

  /** A connected peer is stored, active, and is the device that was asked for. */
  lemma {:induction false} ConnectedPeerIsStored(w: World, q: Request, v: World, r: Result)
    requires Steady(w) && ConnectPost(w, q, v, r) && r.Connected?
    ensures r.peer.id in v.peers && v.peers[r.peer.id] == r.peer
    ensures r.peer.active && r.peer.user == q.device.user && Matches(r.peer, q.device)
  {
    hide Steady, Allocated, Released;
    SteadyKeyed(w);
  }

  lemma {:induction false} MatchingPeerIsReturned(w: World, q: Request, v: World, r: Result, p: Peer)
    requires Steady(w) && ConnectPost(w, q, v, r)
    requires q.keyOk && Entitled(w.subs, q.device.user)
    requires p.id in w.peers && w.peers[p.id] == p && p.active && p.user == q.device.user && Matches(p, q.device)
    ensures v == w && r == Connected(p)
  {
    assert PeerKey(p) == KeyOf(q.device) && KeyOf(q.device) in w.pools;
    assert p.id in MatchesOf(w.peers, q.device);
    forall id | id in MatchesOf(w.peers, q.device) ensures id == p.id {
      MatchIsUnique(w, q.device, id, p.id);
    }
  }

  /** Repeating a Connect after any other calls, by anyone, returns the same peer and changes nothing,
      as long as the user has not revoked that peer and is still subscribed. */
  lemma {:induction false} ConnectIsIdempotent(
      ws: seq<World>, ops: seq<Op>, rs: seq<Result>, i: nat, k: nat, p: Peer)
    requires Calls(ws, ops, rs) && i < k < |ops|
    requires ops[i].Connect? && rs[i] == Connected(p)
    requires ops[k].Connect? && ops[k].request.device == ops[i].request.device && ops[k].request.keyOk
    requires forall j | i < j < k :: ops[j] != Revoke(p.user, p.id)
    requires Entitled(ws[k].subs, p.user)
    ensures rs[k] == Connected(p) && ws[k + 1] == ws[k]
  {
    assert Call(ws[i], ops[i], ws[i + 1], rs[i]) && Call(ws[k], ops[k], ws[k + 1], rs[k]);
    CallsStaySteady(ws, ops, rs, i);
    ConnectedPeerIsStored(ws[i], ops[i].request, ws[i + 1], rs[i]);
    PeerStaysUntilRevoked(ws, ops, rs, i + 1, k, p);
    CallsStaySteady(ws, ops, rs, k);
    MatchingPeerIsReturned(ws[k], ops[k].request, ws[k + 1], rs[k], p);
  }
}
