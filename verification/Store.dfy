/** The in-memory store: the reference the rest of the control plane is measured against. */
module Store {
  import opened Basics
  import opened Netalloc
  import opened Tokens

  datatype Peer = Peer(
    id: string, user: string, node: string, stealth: bool,
    address: Prefix, publicKey: string, createdAt: int, active: bool)

  /** The identifiers of the user's active peers. */
  function ActiveOf(peers: map<string, Peer>, user: string): set<string> {
    set id | id in peers && peers[id].user == user && peers[id].active
  }

  ghost predicate KeyedById(peers: map<string, Peer>) {
    forall id | id in peers :: peers[id].id == id
  }

  class Memory {
    var peers: map<string, Peer>
    var subs: map<string, string>
    var refresh: Rows

    constructor ()
      ensures peers == map[] && subs == map[] && refresh == map[]
    {
      peers, subs, refresh := map[], map[], map[];
    }

    method SavePeer(p: Peer)
      modifies this`peers
      ensures peers == old(peers)[p.id := p]
    {
      peers := peers[p.id := p];
    }

    /** The user's active peers, each once, in whatever order the map is walked. */
    method PeersByUser(user: string) returns (out: seq<Peer>)
      requires KeyedById(peers)
      ensures forall p | p in out :: p.id in ActiveOf(peers, user) && peers[p.id] == p
      ensures forall id | id in ActiveOf(peers, user) :: peers[id] in out
      ensures |out| == |ActiveOf(peers, user)|
    {
      out := [];
      var todo := peers.Keys;
      ghost var found: set<string> := {};
      while todo != {}
        invariant todo <= peers.Keys
        invariant found == ActiveOf(peers, user) - todo
        invariant |out| == |found|
        invariant forall p | p in out :: p.id in found && peers[p.id] == p
        invariant forall id | id in found :: peers[id] in out
        decreases |todo|
      {
        var id :| id in todo;
        todo := todo - {id};
        if peers[id].user == user && peers[id].active {
          out := out + [peers[id]];
          assert id !in found;
          found := found + {id};
        }
      }
    }

    method RevokePeer(peerID: string, user: string) returns (ok: bool)
      modifies this`peers
      ensures ok <==> peerID in old(peers) && old(peers)[peerID].user == user
      ensures peers == if ok then old(peers)[peerID := old(peers)[peerID].(active := false)] else old(peers)
    {
      if peerID !in peers || peers[peerID].user != user {
        return false;
      }
      peers := peers[peerID := peers[peerID].(active := false)];
      ok := true;
    }

    method UpsertSubscription(user: string, state: string)
      modifies this`subs
      ensures subs == old(subs)[user := state]
    {
      subs := subs[user := state];
    }

    method GetSubscription(user: string) returns (state: Option<string>)
      ensures state == if user in subs then Some(subs[user]) else None
    {
      state := if user in subs then Some(subs[user]) else None;
    }

    method SaveRefreshToken(jti: string, user: string)
      modifies this`refresh
      ensures refresh == Saved(old(refresh), jti, user)
    {
      refresh := refresh[jti := Row(user, false)];
    }

    method ConsumeRefreshToken(jti: string) returns (outcome: Outcome)
      modifies this`refresh
      ensures (refresh, outcome) == Consumed(old(refresh), jti)
    {
      if jti !in refresh {
        return Unknown;
      }
      var row := refresh[jti];
      if row.consumed {
        BurnFamily(row.user);
        return Replayed(row.user);
      }
      refresh := refresh[jti := Row(row.user, true)];
      outcome := Accepted(row.user);
    }

    method RevokeAllRefreshTokens(user: string)
      modifies this`refresh
      ensures refresh == Burned(old(refresh), user)
    {
      BurnFamily(user);
    }

    /** The loop shared by replay detection and revocation. */
    method BurnFamily(user: string)
      modifies this`refresh
      ensures refresh == Burned(old(refresh), user)
    {
      var todo := refresh.Keys;
      while todo != {}
        invariant todo <= refresh.Keys == old(refresh).Keys
        invariant forall j | j in todo :: refresh[j] == old(refresh)[j]
        invariant forall j | j in refresh && j !in todo :: refresh[j] == Burned(old(refresh), user)[j]
        decreases |todo|
      {
        var j :| j in todo;
        todo := todo - {j};
        if refresh[j].user == user {
          refresh := refresh[j := refresh[j].(consumed := true)];
        }
      }
    }
  }
}
