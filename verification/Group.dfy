/** Replica identities (grp/node.go). */
module Group {
  type PaxosID = x: int | -128 <= x <= 127
  type Epoch = x: int | 0 <= x < 0x1_0000_0000_0000_0000

  datatype ID = ID(paxosID: PaxosID, epoch: Epoch)

  const ZERO_ID := ID(0, 0)

  /** The order of identities: position first, then epoch. */
  predicate Below(a: ID, b: ID) {
    a.paxosID < b.paxosID || (a.paxosID == b.paxosID && a.epoch < b.epoch)
  }

  function CompareTo(id: ID, other: ID): (r: int)
    ensures r == -1 || r == 0 || r == 1
    ensures r == -1 <==> Below(id, other)
    ensures r == 0 <==> id == other
    ensures r == 1 <==> Below(other, id)
  {
    if id.paxosID > other.paxosID then 1
    else if id.paxosID < other.paxosID then -1
    else if id.epoch > other.epoch then 1
    else if id.epoch < other.epoch then -1
    else 0
  }

  method EpochSlicesEqual(a: seq<Epoch>, b: seq<Epoch>) returns (equal: bool)
    ensures equal <==> a == b
  {
    if |a| != |b| {
      return false;
    }
    for i := 0 to |a|
      invariant a[..i] == b[..i]
    {
      if a[i] != b[i] {
        return false;
      }
    }
    return true;
  }
}
