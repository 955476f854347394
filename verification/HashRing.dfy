/**
 The consistent hash ring (ebpf-detection-02/agent/internal/ring/ring.go).

 The value of a ring is the map from virtual-node hashes to peers.  The hash function is a parameter, so
 everything holds for every hash function, collisions included.
 */
module HashRing {
  import opened Sorting
  import opened Decimals

  const SPACE := 0x1_0000_0000
  const DEFAULT_VIRTUAL_NODES := 150

  type Hash = x: int | 0 <= x < SPACE

  type Nodes = map<Hash, string>

  /** The name of the i-th virtual node of a peer. */
  function VirtualKey(peer: string, i: nat): string {
    peer + "#" + Decimal(i)
  }

  /** Different virtual nodes have different names, so only the hash function can make two of them clash. */
  lemma VirtualKeysDiffer(peer: string, i: nat, other: string, j: nat)
    requires VirtualKey(peer, i) == VirtualKey(other, j)
    ensures peer == other && i == j
  {
    DigitsOnly(i, '#');
    DigitsOnly(j, '#');
    assert peer + ['#'] + Decimal(i) == VirtualKey(peer, i) == VirtualKey(other, j) == other + ['#'] + Decimal(j);
    SplitsOnceFromEnd(peer, other, Decimal(i), Decimal(j), '#');
    DecimalIsInjective(i, j);
  }

  function VirtualHash(hash: string -> Hash, peer: string, i: nat): Hash {
    hash(VirtualKey(peer, i))
  }

  function VirtualHashes(hash: string -> Hash, peer: string, count: nat): set<Hash> {
    set i: nat | i < count :: VirtualHash(hash, peer, i)
  }

  /** A peer claims its virtual nodes, taking over any that it shares with another peer. */
  function Joined(hash: string -> Hash, count: nat, m: Nodes, peer: string): Nodes {
    m + map h | h in VirtualHashes(hash, peer, count) :: peer
  }

  lemma OneMoreClaim(hash: string -> Hash, i: nat, m: Nodes, peer: string)
    ensures Joined(hash, i + 1, m, peer) == Joined(hash, i, m, peer)[VirtualHash(hash, peer, i) := peer]
  {
  }

  function Left(m: Nodes, peer: string): Nodes {
    map h | h in m && m[h] != peer :: m[h]
  }

  // ----- circular successor -----

  /** How far clockwise it is from one place to another. */
  function Gap(from: Hash, to: Hash): int {
    if to >= from then to - from else to - from + SPACE
  }

  ghost predicate IsSuccessor(keys: set<Hash>, h: Hash, s: Hash) {
    s in keys && forall k :: k in keys ==> Gap(h, s) <= Gap(h, k)
  }

  ghost function Successor(keys: set<Hash>, h: Hash): (s: Hash)
    requires keys != {}
    ensures IsSuccessor(keys, h, s)
  {
    var k :| k in keys;
    if keys == {k} then k
    else
      var s := Successor(keys - {k}, h);
      if Gap(h, k) <= Gap(h, s) then k else s
  }

  lemma SuccessorIsUnique(keys: set<Hash>, h: Hash, s: Hash, t: Hash)
    requires IsSuccessor(keys, h, s) && IsSuccessor(keys, h, t)
    ensures s == t
  {
  }

  /** In plain terms: the first key at or after the place, and if there is none the first of all. */
  lemma SuccessorComesNext(keys: set<Hash>, h: Hash, s: Hash)
    ensures IsSuccessor(keys, h, s)
            <==> s in keys && if exists k :: k in keys && k >= h then s >= h && forall k :: k in keys && k >= h ==> s <= k
                              else forall k :: k in keys ==> s <= k
  {
  }

  /** The owner of a place on the ring; the empty name when the ring is empty. */
  ghost function OwnerAt(m: Nodes, h: Hash): string {
    if m == map[] then "" else m[Successor(m.Keys, h)]
  }

  // ----- minimal disruption -----

  /** When a peer leaves, every place that it did not own keeps its owner. */
  lemma LeavingMovesOnlyOwnKeys(m: Nodes, peer: string, h: Hash)
    requires OwnerAt(m, h) != peer
    ensures OwnerAt(Left(m, peer), h) == OwnerAt(m, h)
  {
    if m != map[] {
      var s := Successor(m.Keys, h);
      assert s in Left(m, peer);
      SuccessorIsUnique(Left(m, peer).Keys, h, s, Successor(Left(m, peer).Keys, h));
    }
  }

  /** When a peer joins, every place is owned by its old owner or by the newcomer. */
  lemma JoiningMovesKeysOnlyToNewcomer(hash: string -> Hash, count: nat, m: Nodes, peer: string, h: Hash)
    ensures OwnerAt(Joined(hash, count, m, peer), h) == OwnerAt(m, h) || OwnerAt(Joined(hash, count, m, peer), h) == peer
  {
    var j := Joined(hash, count, m, peer);
    if m == map[] || j == map[] {
      assert j.Keys == m.Keys + VirtualHashes(hash, peer, count);
      if j != map[] {
        assert Successor(j.Keys, h) in VirtualHashes(hash, peer, count);
      }
    } else {
      var s := Successor(j.Keys, h);
      if j[s] != peer {
        assert s in m && forall k :: k in m ==> k in j;
        SuccessorIsUnique(m.Keys, h, s, Successor(m.Keys, h));
      }
    }
  }

  /** Leaving undoes joining exactly when the peer was not a member and none of its virtual nodes
      collides with one already there. */
  lemma LeavingUndoesJoining(hash: string -> Hash, count: nat, m: Nodes, peer: string)
    ensures Left(Joined(hash, count, m, peer), peer) == m
            <==> peer !in m.Values && VirtualHashes(hash, peer, count) !! m.Keys
  {
  }

  // ----- histories -----

  datatype Op = Join(peer: string) | Leave(peer: string)

  function After(hash: string -> Hash, count: nat, ops: seq<Op>): Nodes {
    if ops == [] then map[]
    else
      var m := After(hash, count, ops[..|ops| - 1]);
      match ops[|ops| - 1]
      case Join(p) => Joined(hash, count, m, p)
      case Leave(p) => Left(m, p)
  }

  function Members(ops: seq<Op>): set<string> {
    if ops == [] then {}
    else
      match ops[|ops| - 1]
      case Join(p) => Members(ops[..|ops| - 1]) + {p}
      case Leave(p) => Members(ops[..|ops| - 1]) - {p}
  }

  /** Everyone who ever joined. */
  function Joiners(ops: seq<Op>): set<string> {
    set op | op in ops && op.Join? :: op.peer
  }

  ghost predicate NoClash(hash: string -> Hash, count: nat, peers: set<string>) {
    forall p, q :: p in peers && q in peers && p != q ==> VirtualHashes(hash, p, count) !! VirtualHashes(hash, q, count)
  }

  /** The ring that has exactly the virtual nodes of the members, each under its own peer. */
  ghost predicate IsRingOf(hash: string -> Hash, count: nat, members: set<string>, m: Nodes) {
    && (forall h :: h in m ==> m[h] in members && h in VirtualHashes(hash, m[h], count))
    && (forall p, h :: p in members && h in VirtualHashes(hash, p, count) ==> h in m)
  }

  lemma {:induction false} HistoryGivesRingOfMembers(hash: string -> Hash, count: nat, peers: set<string>, ops: seq<Op>)
    requires NoClash(hash, count, peers) && Joiners(ops) <= peers
    ensures Members(ops) <= peers
    ensures IsRingOf(hash, count, Members(ops), After(hash, count, ops))
  {
    if ops != [] {
      var before, op := ops[..|ops| - 1], ops[|ops| - 1];
      assert Joiners(before) <= Joiners(ops) && op in ops;
      HistoryGivesRingOfMembers(hash, count, peers, before);
      var m, n := After(hash, count, before), After(hash, count, ops);
      match op
      case Join(p) =>
        forall h | h in n ensures n[h] in Members(ops) && h in VirtualHashes(hash, n[h], count) {
          assert h in VirtualHashes(hash, p, count) || (h in m && n[h] == m[h]);
        }
      case Leave(p) =>
        forall q, h | q in Members(ops) && h in VirtualHashes(hash, q, count) ensures h in n {
          assert h in m && h in VirtualHashes(hash, m[h], count);
        }
    }
  }

  /** Without collisions between the peers that ever joined, any two histories that end in the same members give the same
      ring, and so the same owner of every place. */
  lemma OrderDoesNotMatter(hash: string -> Hash, count: nat, ops1: seq<Op>, ops2: seq<Op>)
    requires NoClash(hash, count, Joiners(ops1) + Joiners(ops2)) && Members(ops1) == Members(ops2)
    ensures After(hash, count, ops1) == After(hash, count, ops2)
  {
    HistoryGivesRingOfMembers(hash, count, Joiners(ops1) + Joiners(ops2), ops1);
    HistoryGivesRingOfMembers(hash, count, Joiners(ops1) + Joiners(ops2), ops2);
    var m, n := After(hash, count, ops1), After(hash, count, ops2);
    forall h ensures h in m <==> h in n {
    }
    forall h | h in m ensures m[h] == n[h] {
      assert h in VirtualHashes(hash, m[h], count) && h in VirtualHashes(hash, n[h], count);
    }
  }

  /** Two peers joining in either order give the same ring exactly if they share no virtual node. */
  lemma JoinsCommuteIffNoClash(hash: string -> Hash, count: nat, m: Nodes, p: string, q: string)
    requires p != q
    ensures Joined(hash, count, Joined(hash, count, m, p), q) == Joined(hash, count, Joined(hash, count, m, q), p)
            <==> VirtualHashes(hash, p, count) !! VirtualHashes(hash, q, count)
  {
    var a, b := VirtualHashes(hash, p, count), VirtualHashes(hash, q, count);
    ClaimsCommute(m, a, b, p, q);
  }

  lemma ClaimsCommute(m: Nodes, a: set<Hash>, b: set<Hash>, p: string, q: string)
    requires p != q
    ensures m + (map h | h in a :: p) + (map h | h in b :: q) == m + (map h | h in b :: q) + (map h | h in a :: p)
            <==> a !! b
  {
    var pq, qp := m + (map h | h in a :: p) + (map h | h in b :: q), m + (map h | h in b :: q) + (map h | h in a :: p);
    if h :| h in a && h in b {
      assert pq[h] == q && qp[h] == p;
    } else {
      assert pq.Keys == qp.Keys;
      forall h | h in pq ensures pq[h] == qp[h] {
        assert !(h in a && h in b);
      }
    }
  }

  /** Every place has exactly one owner among the members, the same one whatever order each agent saw
      the joins and leaves in. */
  lemma ExactlyOneOwner(hash: string -> Hash, count: nat, peers: set<string>, views: set<seq<Op>>, members: set<string>, h: Hash)
    returns (owner: string)
    requires NoClash(hash, count, peers) && count > 0 && members != {}
    requires forall v :: v in views ==> Members(v) == members && Joiners(v) <= peers
    ensures owner in members
    ensures forall v :: v in views ==> OwnerAt(After(hash, count, v), h) == owner
  {
    if views == {} {
      owner :| owner in members;
    } else {
      var first :| first in views;
      var m := After(hash, count, first);
      HistoryGivesRingOfMembers(hash, count, peers, first);
      var p :| p in members;
      assert VirtualHash(hash, p, 0) in VirtualHashes(hash, p, count);
      assert VirtualHash(hash, p, 0) in m;
      owner := OwnerAt(m, h);
      assert Successor(m.Keys, h) in m;
      forall v | v in views ensures OwnerAt(After(hash, count, v), h) == owner {
        OrderDoesNotMatter(hash, count, v, first);
      }
    }
  }

  // ----- the ring object -----

  class Ring {
    const hash: string -> Hash
    const virtualNodes: nat
    var sortedHashes: seq<Hash>
    var hashToNode: Nodes

    /** The sorted index lists exactly the keys of the map, strictly ascending. */
    ghost predicate Valid()
      reads this
    {
      && (forall i, j :: 0 <= i < j < |sortedHashes| ==> sortedHashes[i] < sortedHashes[j])
      && (forall h :: h in sortedHashes <==> h in hashToNode)
    }

    constructor (hash: string -> Hash, virtualNodes: int, peers: seq<string>)
      ensures Valid() && this.hash == hash
      ensures this.virtualNodes == if virtualNodes <= 0 then DEFAULT_VIRTUAL_NODES else virtualNodes
      ensures hashToNode == After(hash, this.virtualNodes, seq(|peers|, i requires 0 <= i < |peers| => Join(peers[i])))
    {
      this.hash := hash;
      this.virtualNodes := if virtualNodes <= 0 then DEFAULT_VIRTUAL_NODES else virtualNodes;
      hashToNode := map[];
      sortedHashes := [];
      new;
      ghost var ops := seq(|peers|, i requires 0 <= i < |peers| => Join(peers[i]));
      for i := 0 to |peers|
        invariant this.hash == hash && this.virtualNodes == if virtualNodes <= 0 then DEFAULT_VIRTUAL_NODES else virtualNodes
        invariant hashToNode == After(hash, this.virtualNodes, ops[..i])
      {
        ClaimNodes(peers[i]);
        assert ops[..i + 1][..i] == ops[..i];
      }
      assert ops[..|peers|] == ops;
      Rebuild();
    }

    method AddPeer(nodeId: string)
      requires Valid()
      modifies this
      ensures Valid() && hashToNode == Joined(hash, virtualNodes, old(hashToNode), nodeId)
    {
      ClaimNodes(nodeId);
      Rebuild();
    }

    method RemovePeer(nodeId: string)
      requires Valid()
      modifies this
      ensures Valid() && hashToNode == Left(old(hashToNode), nodeId)
    {
      var todo := hashToNode.Keys;
      while todo != {}
        invariant todo <= old(hashToNode).Keys
        invariant hashToNode == map h | h in old(hashToNode) && (h in todo || old(hashToNode)[h] != nodeId) :: old(hashToNode)[h]
      {
        var h :| h in todo;
        todo := todo - {h};
        if hashToNode[h] == nodeId {
          hashToNode := hashToNode - {h};
        }
      }
      Rebuild();
    }

    method Owner(key: string) returns (owner: string)
      requires Valid()
      ensures owner == OwnerAt(hashToNode, hash(key))
    {
      if |sortedHashes| == 0 {
        assert hashToNode == map[] by {
          assert forall h :: h !in hashToNode;
        }
        return "";
      }
      var h := hash(key);
      var idx := Search(h);
      if idx >= |sortedHashes| {
        idx := 0;
      }
      var s := sortedHashes[idx];
      assert s in sortedHashes;
      forall k | k in hashToNode ensures Gap(h, s) <= Gap(h, k) {
        assert k in sortedHashes;
      }
      SuccessorIsUnique(hashToNode.Keys, h, s, Successor(hashToNode.Keys, h));
      owner := hashToNode[s];
    }

    /** Binary search for the first virtual node at or after h. */
    method Search(h: Hash) returns (idx: nat)
      requires Valid()
      ensures idx <= |sortedHashes|
      ensures forall i :: 0 <= i < idx ==> sortedHashes[i] < h
      ensures forall i :: idx <= i < |sortedHashes| ==> sortedHashes[i] >= h
    {
      var lo, hi := 0, |sortedHashes|;
      while lo < hi
        invariant 0 <= lo <= hi <= |sortedHashes|
        invariant forall i :: 0 <= i < lo ==> sortedHashes[i] < h
        invariant forall i :: hi <= i < |sortedHashes| ==> sortedHashes[i] >= h
      {
        var mid := (lo + hi) / 2;
        if sortedHashes[mid] >= h {
          hi := mid;
        } else {
          lo := mid + 1;
        }
      }
      idx := lo;
    }

    method ClaimNodes(nodeId: string)
      modifies this`hashToNode
      ensures hashToNode == Joined(hash, virtualNodes, old(hashToNode), nodeId)
    {
      for i := 0 to virtualNodes
        invariant hashToNode == Joined(hash, i, old(hashToNode), nodeId)
      {
        var h := VirtualHash(hash, nodeId, i);
        OneMoreClaim(hash, i, old(hashToNode), nodeId);
        hashToNode := hashToNode[h := nodeId];
      }
    }

    method Rebuild()
      modifies this`sortedHashes
      ensures Valid()
    {
      var hashes := Elements(hashToNode.Keys);
      sortedHashes := Sort((a: Hash, b: Hash) => a <= b, hashes);
      ListedOnce(hashToNode.Keys, sortedHashes);
    }
  }
}
