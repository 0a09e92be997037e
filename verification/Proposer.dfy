/**
 * The MultiPaxos proposer (multipaxos/proposer.go, paxos/pslots.go).
 *
 * The functions below are the steps of the event loop on values; the class
 * refines them. Broadcast messages are returned in the order they are sent.
 */
module Proposers {
  import opened Wrappers
  import opened Group
  import opened Paxos

  const RESENDS_BEFORE_RESTARTING_PHASE_ONE := 10

  datatype ProposerSlot = ProposerSlot(id: SlotID, proposal: Option<Accept>, sentCount: nat)

  type Slots = map<SlotID, ProposerSlot>
  type Promises = seq<Option<Promise>>

  datatype State = State(
    id: ID,
    leader: ID,
    alpha: nat,
    nrOfNodes: nat,
    quorum: nat,
    crnd: Round,
    nextSlot: SlotID,
    adu: SlotID,
    slots: Slots,
    maxSeen: SlotID,
    reqQueue: seq<Value>,
    phaseOnePromises: Promises,
    phaseOneCount: nat,
    phaseOneDone: bool)

  datatype Event =
    | NewDecided
    | ClientValue(val: Value)
    | Trust(id: ID)
    | PromiseReceived(promise: Promise)
    | PhaseOneTimeout
    | PhaseTwoTimeout

  // ----- Slots

  function SlotAt(slots: Slots, i: SlotID): ProposerSlot {
    if i in slots then slots[i] else ProposerSlot(i, None, 0)
  }

  /** The proposal kept for slot i. */
  function ProposalAt(st: State, i: SlotID): Option<Accept> {
    SlotAt(st.slots, i).proposal
  }

  function Put(st: State, i: SlotID, slot: ProposerSlot): State {
    st.(slots := st.slots[i := slot], maxSeen := if i > st.maxSeen then i else st.maxSeen)
  }

  function Touch(st: State, i: SlotID): State {
    Put(st, i, SlotAt(st.slots, i))
  }

  /** st and r differ at most in slot bookkeeping: no proposal was changed. */
  ghost predicate SameButCounters(st: State, r: State) {
    && r == st.(slots := r.slots, maxSeen := r.maxSeen)
    && forall i: SlotID :: SlotAt(r.slots, i).(sentCount := 0) == SlotAt(st.slots, i).(sentCount := 0)
  }

  // ----- Phase one

  /** Clears the resend counters of the slots adu+1..hi-1. */
  function ResetCounters(st: State, hi: SlotID): (r: State)
    ensures SameButCounters(st, r)
    ensures forall i: SlotID :: SlotAt(r.slots, i).sentCount == if st.adu < i < hi then 0 else SlotAt(st.slots, i).sentCount
  {
    if hi <= st.adu + 1 then st
    else
      var t := ResetCounters(st, hi - 1);
      var u := Put(t, hi - 1, SlotAt(t.slots, hi - 1).(sentCount := 0));
      assert forall i: SlotID :: i != hi - 1 ==> SlotAt(u.slots, i) == SlotAt(t.slots, i);
      u
  }

  function NoPromises(n: nat): Promises {
    seq(n, _ => None)
  }

  function PrePhaseOne(st: State, clearRequestQueue: bool): State {
    var t := ResetCounters(st.(phaseOneDone := false, phaseOneCount := 0,
                               phaseOnePromises := NoPromises(st.nrOfNodes)), st.nextSlot);
    t.(crnd := NextRound(st.crnd), reqQueue := if clearRequestQueue then [] else st.reqQueue)
  }

  function StartPhaseOne(st: State, clearRequestQueue: bool): (State, seq<Message>) {
    var t := PrePhaseOne(st, clearRequestQueue);
    (t, [PrepareMsg(Prepare(t.id, t.crnd, t.adu))])
  }

  /** One reported vote is merged into the proposal kept for its slot. */
  function MergeVote(st: State, e: AcceptorSlot): State {
    if e.id <= st.adu then st
    else
      var slot := SlotAt(st.slots, e.id);
      if slot.proposal.Some? && !Less(slot.proposal.value.rnd, e.vrnd) then Touch(st, e.id)
      else Put(st, e.id, slot.(proposal := Some(Accept(ZERO_ID, 0, e.vrnd, e.vval))))
  }

  function MergeVotes(st: State, es: seq<AcceptorSlot>): State {
    if es == [] then st else MergeVote(MergeVotes(st, es[..|es| - 1]), es[|es| - 1])
  }

  function MergePromises(st: State, ps: Promises): State {
    if ps == [] then st
    else
      var t := MergePromises(st, ps[..|ps| - 1]);
      match ps[|ps| - 1]
      case None => t
      case Some(p) => MergeVotes(t, p.accSlots)
  }

  function HandleProm(st: State, msg: Promise): Outcome<(State, bool)> {
    if st.phaseOneDone || st.crnd != msg.rnd then Ok((st, false))
    else if !(0 <= msg.id.paxosID < |st.phaseOnePromises|) then Panic
    else if st.phaseOnePromises[msg.id.paxosID].Some? then Ok((st, false))
    else
      var t := st.(phaseOnePromises := st.phaseOnePromises[msg.id.paxosID := Some(msg)],
                   phaseOneCount := st.phaseOneCount + 1);
      Ok((t, t.phaseOneCount >= st.quorum))
  }

  // ----- Phase two

  function GenAccept(st: State, i: SlotID): (State, Option<Accept>) {
    var slot := SlotAt(st.slots, i);
    if slot.proposal.None? && st.reqQueue == [] then (st, None)
    else
      var val := if slot.proposal.Some? then slot.proposal.value.val else st.reqQueue[0];
      var queue := if slot.proposal.Some? then st.reqQueue else st.reqQueue[1..];
      var accept := Accept(st.id, slot.id, st.crnd, val);
      (st.(slots := st.slots[i := slot.(proposal := Some(accept))], reqQueue := queue), Some(accept))
  }

  predicate InAlphaRange(nextSlot: SlotID, adu: SlotID, alpha: nat) {
    nextSlot <= adu + alpha
  }

  /** One turn of the sending loop: the accept sent, if alpha and the queue allow one. */
  function SendOne(st: State): (State, Option<Accept>) {
    if !InAlphaRange(st.nextSlot, st.adu, st.alpha) then (st, None)
    else
      var (t, accept) := GenAccept(Touch(st, st.nextSlot), st.nextSlot);
      (if accept.Some? then t.(nextSlot := st.nextSlot + 1) else t, accept)
  }

  function SendAccepts(st: State): (State, seq<Message>)
    decreases st.adu + st.alpha + 1 - st.nextSlot
  {
    var (t, accept) := SendOne(st);
    if accept.None? then (t, [])
    else
      var (r, rest) := SendAccepts(t);
      (r, [AcceptMsg(accept.value)] + rest)
  }

  function ResendAccept(st: State, accept: Accept): (r: (State, seq<Message>))
    ensures r.0.nextSlot == st.nextSlot
  {
    var t := Touch(st, accept.slot);
    var slot := t.slots[accept.slot];
    if slot.sentCount >= RESENDS_BEFORE_RESTARTING_PHASE_ONE then StartPhaseOne(t, false)
    else (Put(t, accept.slot, slot.(sentCount := slot.sentCount + 1)), [AcceptMsg(accept)])
  }

  /** One turn of the resend loop. */
  function ResendSlot(st: State, i: SlotID): (r: (State, seq<Message>))
    ensures r.0.nextSlot == st.nextSlot
  {
    var t := Touch(st, i);
    match ProposalAt(t, i)
    case None => (t, [])
    case Some(accept) => ResendAccept(t, accept)
  }

  /** The resend loop from slot i on; it carries on after a restart of phase one. */
  function ResendFrom(st: State, i: SlotID): (State, seq<Message>)
    decreases st.nextSlot - i
  {
    if st.nextSlot <= i then (st, [])
    else
      var (u, out) := ResendSlot(st, i);
      var (r, rest) := ResendFrom(u, i + 1);
      (r, out + rest)
  }

  // ----- The event loop

  predicate LeaderAndPhaseOneComplete(st: State) {
    st.leader == st.id && st.phaseOneDone
  }

  /** The state in which phase two starts. */
  function Completed(st: State): State {
    var t := MergePromises(st, st.phaseOnePromises);
    t.(phaseOneDone := true, nextSlot := t.adu + 1)
  }

  function CompletePhaseOne(st: State): (State, seq<Message>) {
    SendAccepts(Completed(st))
  }

  function Step(st: State, ev: Event): Outcome<(State, seq<Message>)> {
    match ev
    case NewDecided =>
      var t := st.(adu := st.adu + 1);
      Ok(if LeaderAndPhaseOneComplete(t) then SendAccepts(t) else (t, []))
    case ClientValue(val) =>
      if st.leader != st.id then Ok((st, []))
      else
        var t := st.(reqQueue := st.reqQueue + [val]);
        Ok(if t.phaseOneDone then SendAccepts(t) else (t, []))
    case Trust(id) =>
      if st.leader == id then Ok((st, []))
      else
        var t := st.(leader := id);
        Ok(if t.leader != t.id then (t, []) else StartPhaseOne(t, true))
    case PromiseReceived(promise) =>
      (match HandleProm(st, promise)
       case Panic => Panic
       case Ok((t, quorum)) => Ok(if quorum then CompletePhaseOne(t) else (t, [])))
    case PhaseOneTimeout =>
      Ok(if st.leader != st.id || st.phaseOneDone then (st, []) else StartPhaseOne(st, true))
    case PhaseTwoTimeout =>
      Ok(if LeaderAndPhaseOneComplete(st) then ResendFrom(st, st.adu + 1) else (st, []))
  }
}
