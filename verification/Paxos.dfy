/** Rounds, values, messages and slots shared by the Paxos actors (paxos/). */
module Paxos {
  import opened Wrappers
  import opened Group

  type SlotID = nat

  /** Client requests and reconfiguration commands are opaque handles. */
  datatype Value = Noop | App(requests: seq<int>) | Reconfig(command: int)

  // ----- Rounds (paxos/proprnd.go)

  datatype Round = Round(rnd: nat, id: ID)

  const ZERO_ROUND := Round(0, ZERO_ID)

  predicate Less(a: Round, b: Round) {
    a.rnd < b.rnd || (a.rnd == b.rnd && Below(a.id, b.id))
  }

  predicate AtMost(a: Round, b: Round) {
    a == b || Less(a, b)
  }

  function Compare(a: Round, b: Round): (r: int)
    ensures r == -1 || r == 0 || r == 1
    ensures r == -1 <==> Less(a, b)
    ensures r == 0 <==> a == b
    ensures r == 1 <==> Less(b, a)
  {
    if a.rnd == b.rnd then CompareTo(a.id, b.id)
    else if a.rnd < b.rnd then -1
    else 1
  }

  function NewProposerRound(id: ID): Round {
    Round(1, id)
  }

  function NextRound(r: Round): Round {
    Round(r.rnd + 1, r.id)
  }

  // ----- Messages (paxos/msg.go)

  datatype AcceptorSlot = AcceptorSlot(id: SlotID, vrnd: Round, vval: Value)

  datatype Prepare = Prepare(id: ID, crnd: Round, slot: SlotID)
  datatype Promise = Promise(id: ID, rnd: Round, accSlots: seq<AcceptorSlot>, epochVector: seq<Epoch>)
  datatype Accept = Accept(id: ID, slot: SlotID, rnd: Round, val: Value)
  datatype Learn = Learn(id: ID, slot: SlotID, rnd: Round, val: Value, epochVector: seq<Epoch>)
  datatype RangeTuple = RangeTuple(from: SlotID, to: SlotID)
  datatype ResponseTuple = ResponseTuple(slot: SlotID, val: Value)
  datatype CatchUpRequest = CatchUpRequest(id: ID, ranges: seq<RangeTuple>)
  datatype CatchUpResponse = CatchUpResponse(id: ID, vals: seq<ResponseTuple>)

  datatype Message =
    | PrepareMsg(prepare: Prepare)
    | PromiseMsg(promise: Promise)
    | AcceptMsg(accept: Accept)
    | LearnMsg(learn: Learn)
    | CatchUpRequestMsg(request: CatchUpRequest)
    | CatchUpResponseMsg(response: CatchUpResponse)
}
