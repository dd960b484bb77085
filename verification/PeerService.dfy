/** The peer service: whole Connect and Revoke calls over the store and the node allocators. */
module PeerService {
  import opened Basics
  import opened Netalloc
  import opened NetallocRuns
  import opened Store
  import Leases
  import opened PeerCalls

  type PoolKey = Leases.PoolKey

  datatype Entry = Entry(wg: Allocator, awg: Allocator)

  /** An entry as NewService makes it: two new allocators on the node's two blocks. */
  ghost predicate NewEntry(n: string, e: Entry)
    reads e.wg, e.awg
  {
    && e.wg != e.awg
    && Leases.KnownPool(Leases.PoolKey(n, false))
    && e.wg.Value() == NewPool(Leases.Block(Leases.PoolKey(n, false)))
    && e.awg.Value() == NewPool(Leases.Block(Leases.PoolKey(n, true)))
  }

  class Service {
    const store: Memory
    const allocators: map<string, Entry>
    /** Length of a public key once base64-decoded, None when it does not decode. */
    const decodedLength: string -> Option<nat>
    ghost const Repr: set<object>

    twostate lemma PoolsUnchanged()
      requires Framed() && forall k: PoolKey | k.node in allocators :: unchanged(AllocatorOf(k))
      ensures Pools() == old(Pools())
    {
    }

    /** NewService: allocators for the known nodes whose server key is configured. */
    constructor (store: Memory, serverKeys: set<string>, decodedLength: string -> Option<nat>)
      ensures this.store == store && this.decodedLength == decodedLength
      ensures allocators.Keys == serverKeys * {"sgp", "fsn"}
      ensures Started()
    {
      var entries := MakeEntries(serverKeys);
      this.store, this.decodedLength, this.allocators := store, decodedLength, entries;
      Repr := {store} + (set n | n in entries :: entries[n].wg) + (set n | n in entries :: entries[n].awg);
      new;
      forall k: PoolKey | k.node in allocators
        ensures AllocatorOf(k) in Repr && Leases.KnownPool(k) && AllocatorOf(k).Value() == NewPool(Leases.Block(k))
      {
        assert NewEntry(k.node, entries[k.node]);
      }
      assert Framed() && Separate();
    }

    static method MakeEntries(serverKeys: set<string>) returns (entries: map<string, Entry>)
      ensures entries.Keys == serverKeys * {"sgp", "fsn"}
      ensures forall n | n in entries :: fresh(entries[n].wg) && fresh(entries[n].awg) && NewEntry(n, entries[n])
      ensures forall n, m | n in entries && m in entries && n != m ::
                entries[n].wg != entries[m].wg && entries[n].awg != entries[m].awg && entries[n].wg != entries[m].awg
    {
      var nodes := ["sgp", "fsn"];
      entries := map[];
      for i := 0 to |nodes|
        invariant forall n | n in entries :: n in nodes[..i]
        invariant forall j | 0 <= j < i :: nodes[j] in entries <==> nodes[j] in serverKeys
        invariant forall n | n in entries :: fresh(entries[n].wg) && fresh(entries[n].awg) && NewEntry(n, entries[n])
        invariant forall n, m | n in entries && m in entries && n != m ::
                    entries[n].wg != entries[m].wg && entries[n].awg != entries[m].awg && entries[n].wg != entries[m].awg
      {
        if nodes[i] in serverKeys {
          assert DEFAULT_NODES[i].id == nodes[i];
          var wg := Allocator.New(nodes[i], false);
          var awg := Allocator.New(nodes[i], true);
          entries := entries[nodes[i] := Entry(wg.value, awg.value)];
        }
      }
      forall n ensures n in entries <==> n in serverKeys * {"sgp", "fsn"} {
        assert nodes[0] == "sgp" && nodes[1] == "fsn";
      }
    }

    /** The state NewService leaves: new allocators for known pools, none shared. */
    ghost predicate Started()
      reads Repr
    {
      && Framed() && Separate()
      && forall k: PoolKey | k.node in allocators ::
           Leases.KnownPool(k) && AllocatorOf(k).Value() == NewPool(Leases.Block(k))
    }

    /** Over a store without peers the service starts in the initial state of every run. */
    lemma StartsInitial()
      requires Started() && store.peers == map[]
      ensures Valid() && Leases.Init(World())
    {
    }

    function Keys(): set<PoolKey> {
      set n, b | n in allocators.Keys && b in {false, true} :: Leases.PoolKey(n, b)
    }

    function AllocatorOf(k: PoolKey): Allocator
      requires k.node in allocators
    {
      if k.stealth then allocators[k.node].awg else allocators[k.node].wg
    }

    ghost predicate Framed() {
      store in Repr && forall k: PoolKey | k.node in allocators :: AllocatorOf(k) in Repr
    }

    ghost function Pools(): map<PoolKey, Pool>
      requires Framed()
      reads Repr
    {
      map k | k in Keys() :: AllocatorOf(k).Value()
    }

    lemma PoolKeys()
      requires Framed()
      ensures forall k: PoolKey :: k in Pools() <==> k.node in allocators
    {
    }

    ghost function World(): Leases.World
      requires Framed()
      reads Repr
    {
      Leases.World(Pools(), store.peers, store.subs, map[])
    }

    /** No two pools share an allocator. */
    ghost predicate Separate() {
      forall j: PoolKey, k: PoolKey | j.node in allocators && k.node in allocators && j != k ::
        AllocatorOf(j) != AllocatorOf(k)
    }

    ghost predicate Valid()
      reads Repr
    {
      && Framed()
      && Separate()
      && (forall k: PoolKey | k.node in allocators :: AllocatorOf(k).Valid())
      && KeyedById(store.peers)
    }

    /** Changing one allocator changes one pool. */
    twostate lemma OnePoolChanged(k: PoolKey)
      requires Framed() && Separate() && k.node in allocators
      requires forall j: PoolKey | j.node in allocators && j != k :: unchanged(AllocatorOf(j))
      ensures Pools() == old(Pools())[k := AllocatorOf(k).Value()]
    {
    }

    /** Connect up to the device check: the checks in the source's order, then Provision. */
    method Connect(user: string, node: string, key: string, stealth: bool, id: string, now: int, saveFails: bool)
      returns (r: Result)
      requires Valid() && id !in store.peers
      modifies Repr
      ensures Valid()
      ensures ConnectPost(old(World()), RequestOf(user, node, key, stealth, id, now, saveFails), World(), r)
    {
      hide Allocated, Released, Pools, Separate;
      if decodedLength(key) != Some(32) {
        return Failed(BadPublicKey);
      }
      var sub := store.GetSubscription(user);
      if sub.None? {
        return Failed(NotSubscribed);
      }
      if sub.value != "active" && sub.value != "trialing" {
        return Failed(NotSubscribed);
      }
      PoolKeys();
      if node !in allocators {
        return Failed(NodeUnknown);
      }
      var existing := store.PeersByUser(user);
      var d := Leases.Device(user, node, stealth, key);
      var same := FindDevice(existing, d);
      if same.Some? {
        return Connected(same.value);
      }
      if |existing| >= Leases.MAX_PEERS_PER_USER {
        return Failed(TooManyPeers);
      }
      r := Provision(d, id, now, saveFails);
    }

    ghost function RequestOf(
        user: string, node: string, key: string, stealth: bool, id: string, now: int, saveFails: bool): Request {
      Request(Leases.Device(user, node, stealth, key), decodedLength(key) == Some(32), id, now, saveFails)
    }

    /** The search for a peer with exactly this node, protocol and public key. */
    method FindDevice(existing: seq<Peer>, d: Leases.Device) returns (same: Option<Peer>)
      requires forall p | p in existing :: p.id in ActiveOf(store.peers, d.user) && store.peers[p.id] == p
      requires forall id | id in ActiveOf(store.peers, d.user) :: store.peers[id] in existing
      ensures same.None? <==> Leases.MatchesOf(store.peers, d) == {}
      ensures same.Some? ==> same.value.id in Leases.MatchesOf(store.peers, d) && store.peers[same.value.id] == same.value
    {
      for i := 0 to |existing|
        invariant forall j | 0 <= j < i :: !Leases.Matches(existing[j], d)
      {
        var p := existing[i];
        if p.node == d.node && p.stealth == d.stealth && p.publicKey == d.key {
          assert p.id in Leases.MatchesOf(store.peers, d);
          return Some(p);
        }
      }
      same := None;
    }

    /** Connect from the allocation on: take a lease, save the peer, or give the lease back. */
    method Provision(d: Leases.Device, id: string, now: int, saveFails: bool) returns (r: Result)
      requires Valid() && id !in store.peers && d.node in allocators
      modifies Repr
      ensures Valid()
      ensures LeasePost(old(World()), Request(d, true, id, now, saveFails), World(), r)
    {
      hide Allocated, Released, ActiveOf, Pools, Separate, KeyedById;
      var lease := TakeLease(d.node, d.stealth, d.user);
      if lease.None? {
        r := Failed(PoolExhausted);
      } else if saveFails {
        GiveBack(d.node, d.stealth, lease.value, d.user);
        r := Failed(StoreFailure);
      } else {
        var p := Peer(id, d.user, d.node, d.stealth, lease.value, d.key, now, true);
        StorePeer(p);
        r := Connected(p);
      }
    }

    method StorePeer(p: Peer)
      requires Valid()
      modifies Repr
      ensures Valid() && Pools() == old(Pools())
      ensures store.peers == old(store.peers)[p.id := p] && store.subs == old(store.subs)
    {
      store.SavePeer(p);
      PoolsUnchanged();
    }

    method TakeLease(node: string, stealth: bool, user: string) returns (lease: Option<Prefix>)
      requires Valid() && node in allocators
      modifies Repr
      ensures Valid() && store.peers == old(store.peers) && store.subs == old(store.subs)
      ensures var k := Leases.PoolKey(node, stealth);
              && k in old(Pools())
              && lease == Allocated(old(Pools())[k], user).1
              && Pools() == old(Pools())[k := Allocated(old(Pools())[k], user).0]
    {
      ghost var k := Leases.PoolKey(node, stealth);
      var alloc := if stealth then allocators[node].awg else allocators[node].wg;
      assert k in Keys() && AllocatorOf(k) == alloc;
      lease := alloc.Allocate(user);
      OnePoolChanged(k);
    }

    method GiveBack(node: string, stealth: bool, lease: Prefix, user: string)
      requires Valid() && node in allocators
      modifies Repr
      ensures Valid() && store.peers == old(store.peers) && store.subs == old(store.subs)
      ensures var k := Leases.PoolKey(node, stealth);
              && k in old(Pools())
              && Pools() == old(Pools())[k := Released(old(Pools())[k], lease, user).0]
    {
      ghost var k := Leases.PoolKey(node, stealth);
      var alloc := if stealth then allocators[node].awg else allocators[node].wg;
      assert k in Keys() && AllocatorOf(k) == alloc;
      var _ := alloc.Release(lease, user);
      OnePoolChanged(k);
    }

    method Revoke(user: string, peerID: string) returns (r: Result)
      requires Valid()
      modifies Repr
      ensures Valid()
      ensures (World(), r) == Revoked(old(World()), user, peerID)
    {
      hide Released, Pools, Separate;
      PoolKeys();
      var peers := store.PeersByUser(user);
      var target := FindPeer(peers, user, peerID);
      if target.None? {
        return Failed(NotFound);
      }
      var p := target.value;
      if p.node in allocators {
        GiveBack(p.node, p.stealth, p.address, user);
      }
      label revoke:
      var ok := store.RevokePeer(peerID, user);
      PoolsUnchanged@revoke();
      r := if ok then Done else Failed(NotFound);
    }

    /** The search for the user's own active peer with this identifier. */
    method FindPeer(peers: seq<Peer>, user: string, peerID: string) returns (target: Option<Peer>)
      requires KeyedById(store.peers)
      requires forall p | p in peers :: p.id in ActiveOf(store.peers, user) && store.peers[p.id] == p
      requires forall id | id in ActiveOf(store.peers, user) :: store.peers[id] in peers
      ensures target == if peerID in ActiveOf(store.peers, user) then Some(store.peers[peerID]) else None
    {
      for i := 0 to |peers|
        invariant forall j | 0 <= j < i :: peers[j].id != peerID
      {
        if peers[i].id == peerID {
          return Some(peers[i]);
        }
      }
      target := None;
    }
  }
}
