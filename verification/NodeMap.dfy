/** The members of a group, their epochs by position and the quorum size (grp/node.go). */
module Nodes {
  import opened Wrappers
  import opened Group
  import Sets

  datatype Node = Node(ip: string, paxosPort: string, clientPort: string, proposer: bool, acceptor: bool, learner: bool)

  datatype Error = NodeIDOutOfBounds | NodeAlreadyPresent | EqualPaxosIDAlreadyPresent | OldNodeNotFound

  function Acceptors(nodes: map<ID, Node>): set<ID> {
    set id | id in nodes && nodes[id].acceptor
  }

  /** No two members share a position. */
  predicate DistinctPositions(nodes: map<ID, Node>) {
    forall a, b :: a in nodes && b in nodes && a.paxosID == b.paxosID ==> a == b
  }

  /** The list holds each of the identities once, in any order. */
  ghost predicate Lists(ids: seq<ID>, members: set<ID>) {
    && (forall id :: id in ids <==> id in members)
    && (forall i: nat, j: nat :: i < j < |ids| ==> ids[i] != ids[j])
  }

  predicate EpochOfMember(nodes: map<ID, Node>, p: PaxosID, e: Epoch) {
    ID(p, e) in nodes
  }

  /** Any two sets of acceptors that reach the quorum share one. */
  lemma QuorumsMeet(nodes: map<ID, Node>, a: set<ID>, b: set<ID>) returns (id: ID)
    requires a <= Acceptors(nodes) && b <= Acceptors(nodes)
    requires |a| >= |Acceptors(nodes)| / 2 + 1 && |b| >= |Acceptors(nodes)| / 2 + 1
    ensures id in a && id in b
  {
    id := Sets.Pigeonhole(a, b, Acceptors(nodes));
  }

  class NodeMap {
    var nodes: map<ID, Node>
    const epochs: array<Epoch>
    const nrOfNodes: nat
    const nrOfAcceptors: nat
    const quorum: nat
    var idsMemoized: seq<ID>
    var proposerIdsMemoized: seq<ID>
    var acceptorIdsMemoized: seq<ID>
    var learnerIdsMemoized: seq<ID>

    predicate InBounds()
      reads this
    {
      epochs.Length == nrOfNodes && forall id :: id in nodes ==> 0 <= id.paxosID < nrOfNodes
    }

    /** The memoized lists are those of the present members. */
    ghost predicate Memoized()
      reads this
    {
      && Lists(idsMemoized, nodes.Keys)
      && Lists(proposerIdsMemoized, set id | id in nodes && nodes[id].proposer)
      && Lists(acceptorIdsMemoized, Acceptors(nodes))
      && Lists(learnerIdsMemoized, set id | id in nodes && nodes[id].learner)
    }

    /** Each member stands alone at its position, and the epoch vector has its epoch there. */
    ghost predicate Valid()
      reads this, epochs
    {
      && InBounds() && Memoized()
      && DistinctPositions(nodes)
      && forall id :: id in nodes ==> epochs[id.paxosID] == id.epoch
    }

    /** Go panics unless the positions of n members are below n. */
    constructor (nodes: map<ID, Node>)
      requires forall id :: id in nodes ==> 0 <= id.paxosID < |nodes|
      ensures this.nodes == nodes && InBounds() && fresh(epochs)
      ensures nrOfNodes == |nodes| && nrOfAcceptors == |Acceptors(nodes)| && quorum == |Acceptors(nodes)| / 2 + 1
      ensures forall id :: id in nodes ==> EpochOfMember(nodes, id.paxosID, epochs[id.paxosID])
      ensures Memoized()
      ensures Valid() <==> DistinctPositions(nodes)
    {
      var count, acc := CountNodes(nodes);
      this.nodes, nrOfNodes, nrOfAcceptors, quorum := nodes, count, acc, acc / 2 + 1;
      epochs := new Epoch[count](_ => 0);
      new;
      FillEpochs(nodes, epochs);
      Memoize();
    }

    method Memoize()
      modifies `idsMemoized, `proposerIdsMemoized, `acceptorIdsMemoized, `learnerIdsMemoized
      ensures Memoized()
    {
      idsMemoized := ListOf(nodes.Keys);
      proposerIdsMemoized := ListOf(set id | id in nodes && nodes[id].proposer);
      acceptorIdsMemoized := ListOf(set id | id in nodes && nodes[id].acceptor);
      learnerIdsMemoized := ListOf(set id | id in nodes && nodes[id].learner);
    }

    /** Appends the identities one by one, in the order of the map. */
    static method ListOf(members: set<ID>) returns (ids: seq<ID>)
      ensures Lists(ids, members)
    {
      ids := [];
      var left := members;
      while left != {}
        invariant left <= members && Lists(ids, members - left)
        decreases left
      {
        var id :| id in left;
        ids, left := ids + [id], left - {id};
      }
    }

    static method FillEpochs(nodes: map<ID, Node>, epochs: array<Epoch>)
      requires forall id :: id in nodes ==> 0 <= id.paxosID < epochs.Length
      modifies epochs
      ensures forall id :: id in nodes ==> EpochOfMember(nodes, id.paxosID, epochs[id.paxosID])
    {
      var left := nodes.Keys;
      while left != {}
        invariant left <= nodes.Keys
        invariant forall id :: id in nodes.Keys - left ==> EpochOfMember(nodes, id.paxosID, epochs[id.paxosID])
        decreases left
      {
        var id :| id in left;
        epochs[id.paxosID] := id.epoch;
        assert EpochOfMember(nodes, id.paxosID, id.epoch);
        left := left - {id};
      }
    }

    static method CountNodes(nodes: map<ID, Node>) returns (count: nat, acceptors: nat)
      ensures count == |nodes| && acceptors == |Acceptors(nodes)|
    {
      count, acceptors := 0, 0;
      var left := nodes.Keys;
      ghost var seen: set<ID> := {};
      while left != {}
        invariant left <= nodes.Keys && count == |nodes.Keys| - |left|
        invariant seen == (set id | id in nodes.Keys - left && nodes[id].acceptor)
        invariant acceptors == |seen|
        decreases left
      {
        var id :| id in left;
        if nodes[id].acceptor {
          acceptors := acceptors + 1;
          seen := seen + {id};
        }
        count, left := count + 1, left - {id};
      }
      assert seen == Acceptors(nodes);
    }

    /** Any member at the position, in the order of the map. */
    method LookupNodeWithPaxosID(pxID: PaxosID) returns (found: Option<ID>)
      ensures found.Some? ==> found.value in nodes && found.value.paxosID == pxID
      ensures found.None? ==> forall id :: id in nodes ==> id.paxosID != pxID
    {
      var left := nodes.Keys;
      while left != {}
        invariant left <= nodes.Keys
        invariant forall id :: id in nodes.Keys - left ==> id.paxosID != pxID
        decreases left
      {
        var id :| id in left;
        if id.paxosID == pxID {
          return Some(id);
        }
        left := left - {id};
      }
      return None;
    }

    /** Adds a member at a free position, or says which rule it breaks. */
    method Add(id: ID, node: Node) returns (err: Option<Error>)
      requires Valid()
      modifies this, epochs
      ensures Valid()
      ensures err == if !(0 <= id.paxosID < nrOfNodes) then Some(NodeIDOutOfBounds)
                     else if id in old(nodes) then Some(NodeAlreadyPresent)
                     else if exists m :: m in old(nodes) && m.paxosID == id.paxosID then Some(EqualPaxosIDAlreadyPresent)
                     else None
      ensures nodes == if err.None? then old(nodes)[id := node] else old(nodes)
      ensures forall p: nat :: p < nrOfNodes && p != id.paxosID ==> epochs[p] == old(epochs[p])
    {
      if id.paxosID < 0 || id.paxosID > nrOfNodes - 1 {
        return Some(NodeIDOutOfBounds);
      }
      if id in nodes {
        return Some(NodeAlreadyPresent);
      }
      var found := LookupNodeWithPaxosID(id.paxosID);
      if found.Some? {
        return Some(EqualPaxosIDAlreadyPresent);
      }
      nodes := nodes[id := node];
      epochs[id.paxosID] := id.epoch;
      Memoize();
      return None;
    }

    /** Puts a member in the place of the one at its position. */
    method Replace(newID: ID, newNode: Node) returns (err: Option<Error>)
      requires Valid()
      modifies this, epochs
      ensures Valid()
      ensures err == if exists m :: m in old(nodes) && m.paxosID == newID.paxosID then None else Some(OldNodeNotFound)
      ensures err.Some? ==> nodes == old(nodes)
      ensures err.None? ==>
                && newID in nodes && nodes[newID] == newNode
                && (forall id: ID :: id.paxosID != newID.paxosID ==>
                      (id in nodes <==> id in old(nodes)) && (id in nodes ==> nodes[id] == old(nodes)[id]))
      ensures forall p: nat :: p < nrOfNodes && p != newID.paxosID ==> epochs[p] == old(epochs[p])
    {
      var found := LookupNodeWithPaxosID(newID.paxosID);
      if found.None? {
        return Some(OldNodeNotFound);
      }
      nodes := nodes - {found.value};
      nodes := nodes[newID := newNode];
      epochs[newID.paxosID] := newID.epoch;
      Memoize();
      return None;
    }
  }
}
