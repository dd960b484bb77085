/** Lease pools of package netalloc: a free list of released addresses and a wrapping cursor. */
module Netalloc {
  import opened Basics

  datatype Addr = Addr(a: int, b: int, c: int, d: int)

  datatype Prefix = Prefix(addr: Addr, bits: nat)

  datatype Node = Node(id: string, wg: Prefix, awg: Prefix)

  const DEFAULT_NODES: seq<Node> := [
    Node("sgp", Prefix(Addr(10, 20, 0, 0), 24), Prefix(Addr(10, 20, 1, 0), 24)),
    Node("fsn", Prefix(Addr(10, 21, 0, 0), 24), Prefix(Addr(10, 21, 1, 0), 24))
  ]

  function PrefixOf(node: Node, stealth: bool): Prefix {
    if stealth then node.awg else node.wg
  }

  /** The fields of one allocator, as a value. */
  datatype Pool = Pool(base: Prefix, held: map<Addr, string>, free: seq<Addr>, next: int)

  function NewPool(base: Prefix): Pool {
    Pool(base, map[], [], 2)
  }

  const HOSTS: nat := 253

  ghost predicate CursorInRange(p: Pool) {
    2 <= p.next <= 254
  }

  /** Where the cursor stands i probes after it stood at next; at most one wrap from .254 to .2. */
  function CursorAt(next: int, i: nat): int {
    if next + i <= 254 then next + i else next + i - HOSTS
  }

  /** The address with the given last octet; the source truncates the octet to one byte. */
  function Host(base: Prefix, octet: int): Addr {
    base.addr.(d := octet % 256)
  }

  function Probe(p: Pool, i: nat): Addr {
    Host(p.base, CursorAt(p.next, i))
  }

  /** The first of the probes i, i+1, ..., 252 that hits an address nobody holds, or 253. */
  function Search(p: Pool, i: nat): (k: nat)
    requires i <= HOSTS
    ensures i <= k <= HOSTS
    ensures forall j | i <= j < k :: Probe(p, j) in p.held
    ensures k < HOSTS ==> Probe(p, k) !in p.held
    decreases HOSTS - i
  {
    if i == HOSTS || Probe(p, i) !in p.held then i else Search(p, i + 1)
  }

  /** Effect and answer of Allocate. */
  function Allocated(p: Pool, owner: string): (Pool, Option<Prefix>) {
    if p.free != [] then
      var last := |p.free| - 1;
      var addr := p.free[last];
      (p.(free := p.free[..last], held := p.held[addr := owner]), Some(Prefix(addr, p.base.bits)))
    else
      var k := Search(p, 0);
      if k == HOSTS then (p, None)
      else
        var addr := Probe(p, k);
        (p.(held := p.held[addr := owner], next := CursorAt(p.next, k + 1)), Some(Prefix(addr, p.base.bits)))
  }

  /** Effect and answer of Release: only the owner's lease is freed. */
  function Released(p: Pool, lease: Prefix, owner: string): (Pool, bool) {
    if lease.addr in p.held && p.held[lease.addr] == owner then
      (p.(held := p.held - {lease.addr}, free := p.free + [lease.addr]), true)
    else
      (p, false)
  }

  class Allocator {
    const node: Node
    const stealth: bool
    var held: map<Addr, string>
    var free: seq<Addr>
    var next: int

    ghost predicate Valid()
      reads this
    {
      CursorInRange(Value())
    }

    ghost function Value(): (p: Pool)
      reads this
    {
      Pool(PrefixOf(node, stealth), held, free, next)
    }

    constructor (node: Node, stealth: bool)
      ensures Valid() && this.node == node && this.stealth == stealth
      ensures Value() == NewPool(PrefixOf(node, stealth))
    {
      this.node, this.stealth := node, stealth;
      held, free, next := map[], [], 2;
    }

    /** New: looks the node up in the default table; unknown ids are an error. */
    static method New(nodeID: string, stealth: bool) returns (r: Option<Allocator>)
      ensures r.Some? <==> exists n | n in DEFAULT_NODES :: n.id == nodeID
      ensures r.Some? ==> fresh(r.value) && r.value.Valid() && r.value.stealth == stealth
      ensures r.Some? ==> r.value.node in DEFAULT_NODES && r.value.node.id == nodeID
      ensures r.Some? ==> r.value.Value() == NewPool(PrefixOf(r.value.node, stealth))
    {
      for i := 0 to |DEFAULT_NODES|
        invariant forall j | 0 <= j < i :: DEFAULT_NODES[j].id != nodeID
      {
        if DEFAULT_NODES[i].id == nodeID {
          var a := new Allocator(DEFAULT_NODES[i], stealth);
          return Some(a);
        }
      }
      r := None;
    }

    method Allocate(owner: string) returns (lease: Option<Prefix>)
      requires Valid()
      modifies this
      ensures Valid()
      ensures (Value(), lease) == Allocated(old(Value()), owner)
    {
      var n := |free|;
      if n > 0 {
        var addr := free[n - 1];
        free := free[..n - 1];
        held := held[addr := owner];
        return Some(Prefix(addr, PrefixOf(node, stealth).bits));
      }
      var base := PrefixOf(node, stealth);
      ghost var start := Value();
      for i := 0 to HOSTS
        invariant Value() == start.(next := CursorAt(start.next, i))
        invariant forall j | 0 <= j < i :: Probe(start, j) in start.held
      {
        var octet := next;
        next := next + 1;
        if next > 254 {
          next := 2;
        }
        var addr := Host(base, octet);
        if addr !in held {
          SearchIsFirst(start, i);
          held := held[addr := owner];
          return Some(Prefix(addr, base.bits));
        }
      }
      SearchIsFirst(start, HOSTS);
      lease := None;
    }

    method Release(lease: Prefix, owner: string) returns (ok: bool)
      requires Valid()
      modifies this
      ensures Valid()
      ensures (Value(), ok) == Released(old(Value()), lease, owner)
    {
      if lease.addr !in held || held[lease.addr] != owner {
        return false;
      }
      held := held - {lease.addr};
      free := free + [lease.addr];
      ok := true;
    }

    /** HeldBy: the zero value "" stands for a free address. */
    method HeldBy(lease: Prefix) returns (owner: string)
      ensures owner == if lease.addr in held then held[lease.addr] else ""
    {
      owner := if lease.addr in held then held[lease.addr] else "";
    }

    method InUse() returns (n: nat)
      ensures n == |held|
    {
      n := |held|;
    }
  }

  /** Search returns the only index that is free (or 253) with every earlier probe taken. */
  lemma {:induction false} SearchIsFirst(p: Pool, k: nat)
    requires k <= HOSTS
    requires forall j | 0 <= j < k :: Probe(p, j) in p.held
    requires k < HOSTS ==> Probe(p, k) !in p.held
    ensures Search(p, 0) == k
  {
  }
}
