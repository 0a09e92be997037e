/** Quorums of batch learns and what their senders have in common (batchpaxos/quorum.go). */
module BatchQuorum {
  import opened Group
  import opened Batching

  datatype BatchLearn = BatchLearn(id: ID, batchID: nat, hss: BatchPoint)

  datatype BatchState = BatchState(
    execute: bool,
    executed: bool,
    executeRanges: RangeMap,
    learns: seq<BatchLearn>,
    learnsNotified: bool)

  type States = map<nat, BatchState>

  const NEW_STATE := BatchState(false, false, map[], [], false)

  function StateAt(states: States, b: nat): BatchState {
    if b in states then states[b] else NEW_STATE
  }

  function Senders(learns: seq<BatchLearn>): set<ID> {
    set m | m in learns :: m.id
  }

  predicate InAll(learns: seq<BatchLearn>, c: Client) {
    forall k: nat :: k < |learns| ==> c in learns[k].hss
  }

  function Lowest(learns: seq<BatchLearn>, c: Client): Seq
    requires learns != [] && InAll(learns, c)
    decreases |learns|
  {
    var n := |learns| - 1;
    if n == 0 then learns[0].hss[c]
    else
      assert InAll(learns[..n], c);
      var low := Lowest(learns[..n], c);
      if learns[n].hss[c] < low then learns[n].hss[c] else low
  }

  /** The clients that every learn knows, each with the lowest of its highest sequence numbers. */
  function Intersection(learns: seq<BatchLearn>): BatchPoint {
    if learns == [] then map[]
    else map c | c in learns[0].hss && InAll(learns, c) :: Lowest(learns, c)
  }

  lemma {:induction false} LowestIsMinimum(learns: seq<BatchLearn>, c: Client)
    requires learns != [] && InAll(learns, c)
    ensures forall k: nat :: k < |learns| ==> Lowest(learns, c) <= learns[k].hss[c]
    ensures exists k: nat :: k < |learns| && learns[k].hss[c] == Lowest(learns, c)
    decreases |learns|
  {
    var n := |learns| - 1;
    assert learns[n].hss[c] == Lowest(learns, c) || (n > 0 && Lowest(learns[..n], c) == Lowest(learns, c));
    if n > 0 {
      LowestIsMinimum(learns[..n], c);
      var k: nat :| k < n && learns[..n][k].hss[c] == Lowest(learns[..n], c);
      assert learns[k].hss[c] == Lowest(learns[..n], c);
      assert forall j: nat :: j < n ==> learns[..n][j] == learns[j];
    }
  }

  predicate AtMost(a: BatchPoint, b: BatchPoint) {
    forall c :: c in a ==> c in b && a[c] <= b[c]
  }

  /**
   * The intersection is the greatest point that no learn falls short of: no sender is
   * asked to execute more than it has seen, and no client in common is held back.
   */
  lemma IntersectionIsGreatest(learns: seq<BatchLearn>, bp: BatchPoint)
    requires learns != []
    ensures AtMost(bp, Intersection(learns)) <==> forall k: nat :: k < |learns| ==> AtMost(bp, learns[k].hss)
  {
    forall c | InAll(learns, c)
      ensures forall k: nat :: k < |learns| ==> Intersection(learns)[c] <= learns[k].hss[c]
      ensures exists k: nat :: k < |learns| && learns[k].hss[c] == Intersection(learns)[c]
    {
      LowestIsMinimum(learns, c);
    }
    if forall k: nat :: k < |learns| ==> AtMost(bp, learns[k].hss) {
      forall c | c in bp
        ensures c in Intersection(learns) && bp[c] <= Intersection(learns)[c]
      {
        assert InAll(learns, c);
      }
    }
  }

  /** How many learns know the client. */
  function Occurrences(learns: seq<BatchLearn>, c: Client): nat
    decreases |learns|
  {
    if learns == [] then 0
    else
      var n := |learns| - 1;
      Occurrences(learns[..n], c) + if c in learns[n].hss then 1 else 0
  }

  lemma {:induction false} OccursInAll(learns: seq<BatchLearn>, c: Client)
    ensures Occurrences(learns, c) <= |learns|
    ensures Occurrences(learns, c) == |learns| <==> InAll(learns, c)
    decreases |learns|
  {
    if learns != [] {
      var n := |learns| - 1;
      OccursInAll(learns[..n], c);
      assert forall k: nat :: k < n ==> learns[..n][k] == learns[k];
      if InAll(learns, c) {
        assert InAll(learns[..n], c);
      }
    }
  }

  method FindMin(msgs: seq<BatchLearn>, cid: Client) returns (min: Seq)
    requires msgs != [] && InAll(msgs, cid)
    ensures min == Lowest(msgs, cid)
  {
    min := 0;
    var first := true;
    for k := 0 to |msgs|
      invariant first <==> k == 0
      invariant k > 0 ==> InAll(msgs[..k], cid) && min == Lowest(msgs[..k], cid)
    {
      assert msgs[..k + 1][..k] == msgs[..k];
      if first {
        first := false;
        min := msgs[k].hss[cid];
      } else if msgs[k].hss[cid] < min {
        min := msgs[k].hss[cid];
      }
    }
    assert msgs[..|msgs|] == msgs;
  }

  class BatchQuorumChecker {
    var states: States
    const quorumSize: nat

    constructor (qsize: nat)
      ensures states == map[] && quorumSize == qsize
    {
      states, quorumSize := map[], qsize;
    }

    method GetState(batchid: nat) returns (state: BatchState)
      modifies this
      ensures state == StateAt(old(states), batchid)
      ensures states == old(states)[batchid := state]
    {
      if batchid !in states {
        states := states[batchid := NEW_STATE];
      }
      state := states[batchid];
    }

    method AddLearn(msg: BatchLearn)
      modifies this
      ensures var state := StateAt(old(states), msg.batchID);
              states == old(states)[msg.batchID := state.(learns := state.learns + [msg])]
    {
      var state := GetState(msg.batchID);
      states := states[msg.batchID := state.(learns := state.learns + [msg])];
    }

    /** True once, as soon as enough replicas have sent a learn. */
    method LearnQuorumExists(batchid: nat) returns (exists_: bool)
      modifies this
      ensures var state := StateAt(old(states), batchid);
              && exists_ == (|Senders(state.learns)| >= quorumSize && !state.learnsNotified)
              && states == old(states)[batchid := state.(learnsNotified := state.learnsNotified || exists_)]
    {
      var state := GetState(batchid);
      var uniques: set<ID> := {};
      for k := 0 to |state.learns|
        invariant uniques == Senders(state.learns[..k])
      {
        uniques := uniques + {state.learns[k].id};
        assert state.learns[..k + 1] == state.learns[..k] + [state.learns[k]];
      }
      assert state.learns[..|state.learns|] == state.learns;
      exists_ := |uniques| >= quorumSize && !state.learnsNotified;
      if exists_ {
        states := states[batchid := state.(learnsNotified := true)];
      }
    }

    method Intersect(batchid: nat) returns (mins: BatchPoint)
      modifies this
      ensures mins == Intersection(StateAt(old(states), batchid).learns)
      ensures states == old(states)[batchid := StateAt(old(states), batchid)]
    {
      var state := GetState(batchid);
      var learns := state.learns;
      var count := CountClients(learns);
      mins := map[];
      var left := count.Keys;
      while left != {}
        invariant left <= count.Keys && states == old(states)[batchid := state]
        invariant forall c :: c in mins <==> c in count.Keys - left && count[c] == |learns|
        invariant forall c :: c in mins ==> learns != [] && InAll(learns, c) && mins[c] == Lowest(learns, c)
        decreases left
      {
        var cid :| cid in left;
        OccursInAll(learns, cid);
        if count[cid] == |learns| {
          var min := FindMin(learns, cid);
          mins := mins[cid := min];
        }
        left := left - {cid};
      }
      forall c
        ensures c in mins <==> c in Intersection(learns)
      {
        OccursInAll(learns, c);
      }
    }

    method CountClients(learns: seq<BatchLearn>) returns (count: map<Client, nat>)
      ensures forall c :: c in count <==> Occurrences(learns, c) > 0
      ensures forall c :: c in count ==> count[c] == Occurrences(learns, c)
    {
      count := map[];
      for k := 0 to |learns|
        invariant forall c :: c in count <==> Occurrences(learns[..k], c) > 0
        invariant forall c :: c in count ==> count[c] == Occurrences(learns[..k], c)
      {
        assert learns[..k + 1][..k] == learns[..k];
        count := CountMore(count, learns[k].hss);
      }
      assert learns[..|learns|] == learns;
    }

    method CountMore(count: map<Client, nat>, hss: BatchPoint) returns (more: map<Client, nat>)
      ensures forall c :: c in more <==> c in count || c in hss
      ensures forall c :: c in more ==> more[c] == (if c in count then count[c] else 0) + (if c in hss then 1 else 0)
    {
      more := count;
      var left := hss.Keys;
      while left != {}
        invariant left <= hss.Keys
        invariant forall c :: c in more <==> c in count || c in hss.Keys - left
        invariant forall c :: c in more ==>
                    more[c] == (if c in count then count[c] else 0) + (if c in hss.Keys - left then 1 else 0)
        decreases left
      {
        var cid :| cid in left;
        more := more[cid := (if cid in more then more[cid] else 0) + 1];
        left := left - {cid};
      }
    }
  }
}
