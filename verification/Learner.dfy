/**
 * The MultiPaxos learner (multipaxos/learner.go, paxos/lslots.go).
 *
 * The functions below are the steps of the event loop on values; the class
 * refines them. `delivered` holds everything sent on the decided channel.
 */
module Learners {
  import opened Wrappers
  import opened Group
  import opened Paxos

  datatype LearnerSlot = LearnerSlot(
    id: SlotID,
    learned: bool,
    rnd: Round,
    learns: seq<Option<Learn>>,
    votes: nat,
    learnedVal: Value,
    decided: bool)

  type Slots = map<SlotID, LearnerSlot>

  datatype State = State(
    id: ID,
    leader: ID,
    nrOfNodes: nat,
    quorum: nat,
    next: SlotID,
    slots: Slots,
    maxSeen: SlotID,
    catchUpInProgress: bool,
    delivered: seq<Value>)

  datatype Event =
    | LearnReceived(learn: Learn)
    | CatchUpRequested(request: CatchUpRequest)
    | CatchUpAnswered(response: CatchUpResponse)
    | Trust(id: ID)

  /** What learnValue tells the event loop to do. */
  datatype Verdict = Nothing | Advance | StartCatchUp(slot: SlotID)

  // ----- Slots

  function FreshSlot(i: SlotID): LearnerSlot {
    LearnerSlot(i, false, ZERO_ROUND, [], 0, Noop, false)
  }

  function SlotAt(slots: Slots, i: SlotID): LearnerSlot {
    if i in slots then slots[i] else FreshSlot(i)
  }

  function Put(st: State, i: SlotID, slot: LearnerSlot): State {
    st.(slots := st.slots[i := slot], maxSeen := if i > st.maxSeen then i else st.maxSeen)
  }

  function Touch(st: State, i: SlotID): State {
    Put(st, i, SlotAt(st.slots, i))
  }

  ghost predicate SameSlots(st: State, r: State) {
    && r == st.(slots := r.slots, maxSeen := r.maxSeen)
    && forall i: SlotID :: SlotAt(r.slots, i) == SlotAt(st.slots, i)
  }

  /** Looking up the slots lo..hi-1 creates those that are missing. */
  function TouchRange(st: State, lo: SlotID, hi: SlotID): (r: State)
    ensures SameSlots(st, r)
  {
    if hi <= lo then st else Touch(TouchRange(st, lo, hi - 1), hi - 1)
  }

  // ----- Learning

  function NoLearns(n: nat): seq<Option<Learn>> {
    seq(n, _ => None)
  }

  /** A higher round clears the learns collected for the slot. */
  function InRound(slot: LearnerSlot, rnd: Round, nrOfNodes: nat): LearnerSlot {
    if slot.rnd == rnd then slot
    else slot.(rnd := rnd, learns := NoLearns(nrOfNodes), votes := 0)
  }

  function Count(slot: LearnerSlot, msg: Learn): LearnerSlot
    requires 0 <= msg.id.paxosID < |slot.learns|
  {
    slot.(votes := slot.votes + 1, learns := slot.learns[msg.id.paxosID := Some(msg)])
  }

  function HandleLrn(st: State, msg: Learn): Outcome<(State, Option<(Value, SlotID)>)> {
    var slot := SlotAt(st.slots, msg.slot);
    if slot.learned || Less(msg.rnd, slot.rnd) then Ok((Touch(st, msg.slot), None))
    else
      var current := InRound(slot, msg.rnd, st.nrOfNodes);
      if !(0 <= msg.id.paxosID < |current.learns|) then Panic
      else if current.learns[msg.id.paxosID].Some? then Ok((Put(st, msg.slot, current), None))
      else
        var counted := Count(current, msg);
        Ok((Put(st, msg.slot, counted),
            if counted.votes >= st.quorum then Some((msg.val, counted.id)) else None))
  }

  function LearnVal(st: State, learned: Option<(Value, SlotID)>): Outcome<(State, Verdict)> {
    match learned
    case None => Ok((st, Nothing))
    case Some((val, slotID)) =>
      var slot := SlotAt(st.slots, slotID).(learned := true, learnedVal := val);
      var t := Put(st, slotID, slot);
      if slot.id == st.next then Ok((t, Advance))
      else if slot.id > st.next then Ok((t, StartCatchUp(slot.id)))
      else Panic
  }

  // ----- Delivery

  function Pending(slots: Slots): set<SlotID> {
    set i | i in slots && slots[i].learned && !slots[i].decided
  }

  function Adv(st: State): (State, Option<Value>) {
    var t := Touch(st, st.next);
    var slot := t.slots[st.next];
    if slot.learned && !slot.decided
    then (Put(t, st.next, slot.(decided := true)), Some(slot.learnedVal))
    else (t, None)
  }

  /** One turn of the delivery loop. */
  function DeliverOne(st: State): (State, bool) {
    var (t, val) := Adv(st);
    if val.None? then (t, false)
    else (t.(delivered := st.delivered + [val.value], next := st.next + 1), true)
  }

  /** The loop ends: each turn uses up a slot that was learned but not decided. */
  lemma DeliveryShrinks(st: State)
    ensures DeliverOne(st).1 ==> |Pending(DeliverOne(st).0.slots)| < |Pending(st.slots)|
  {
    if DeliverOne(st).1 {
      assert Pending(DeliverOne(st).0.slots) == Pending(st.slots) - {st.next};
      assert st.next in Pending(st.slots);
    }
  }

  /** The delivery loop. */
  function AdvanceAll(st: State): State
    decreases |Pending(st.slots)|
  {
    var (t, more) := DeliverOne(st);
    DeliveryShrinks(st);
    if more then AdvanceAll(t) else t
  }

  // ----- Catch-up

  /** Scanning lo..hi-1: the closed undecided ranges and the start of an open one. */
  function UndecScan(slots: Slots, lo: SlotID, hi: SlotID): (r: (seq<RangeTuple>, Option<SlotID>))
    ensures r.1.Some? ==> lo <= r.1.value < hi
  {
    if hi <= lo then ([], None)
    else
      var (ts, start) := UndecScan(slots, lo, hi - 1);
      if !SlotAt(slots, hi - 1).decided then (ts, if start.None? then Some(hi - 1) else start)
      else if start.Some? then (ts + [RangeTuple(start.value, hi - 2)], None)
      else (ts, None)
  }

  function UndecRanges(slots: Slots, lo: SlotID, hi: SlotID): seq<RangeTuple> {
    var (ts, start) := UndecScan(slots, lo, hi);
    if start.Some? then ts + [RangeTuple(start.value, hi - 1)] else ts
  }

  /** The decided slots among lo..hi-1 with their values. */
  function DecidedIn(slots: Slots, lo: SlotID, hi: SlotID): seq<ResponseTuple> {
    if hi <= lo then []
    else
      DecidedIn(slots, lo, hi - 1)
      + if SlotAt(slots, hi - 1).decided
        then [ResponseTuple(hi - 1, SlotAt(slots, hi - 1).learnedVal)]
        else []
  }

  function HandleCUReq(st: State, ranges: seq<RangeTuple>): (State, seq<ResponseTuple>) {
    if ranges == [] then (st, [])
    else
      var (t, vals) := HandleCUReq(st, ranges[..|ranges| - 1]);
      var rng := ranges[|ranges| - 1];
      (TouchRange(t, rng.from, rng.to + 1), vals + DecidedIn(t.slots, rng.from, rng.to + 1))
  }

  function Adopt(st: State, dec: ResponseTuple): State {
    var slot := SlotAt(st.slots, dec.slot);
    Put(st, dec.slot, if slot.learned then slot else slot.(learned := true, learnedVal := dec.val))
  }

  function HandleCUResp(st: State, vals: seq<ResponseTuple>): State {
    if vals == [] then st else Adopt(HandleCUResp(st, vals[..|vals| - 1]), vals[|vals| - 1])
  }

  // ----- The event loop

  function StartCatchUpStep(st: State, slot: SlotID): (State, seq<Message>) {
    if st.catchUpInProgress || st.id == st.leader then (st, [])
    else
      (TouchRange(st.(catchUpInProgress := true), st.next, slot),
       [CatchUpRequestMsg(CatchUpRequest(st.id, UndecRanges(st.slots, st.next, slot)))])
  }

  function OnLearn(st: State, msg: Learn): Outcome<(State, seq<Message>)> {
    match HandleLrn(st, msg)
    case Panic => Panic
    case Ok((t, learned)) =>
      match LearnVal(t, learned)
      case Panic => Panic
      case Ok((u, verdict)) =>
        match verdict
        case Nothing => Ok((u, []))
        case Advance => Ok((AdvanceAll(u), []))
        case StartCatchUp(slot) => Ok(StartCatchUpStep(u, slot))
  }

  function Step(st: State, ev: Event): Outcome<(State, seq<Message>)> {
    match ev
    case LearnReceived(msg) => OnLearn(st, msg)
    case CatchUpRequested(msg) =>
      var (t, vals) := HandleCUReq(st, msg.ranges);
      Ok((t, [CatchUpResponseMsg(CatchUpResponse(st.id, vals))]))
    case CatchUpAnswered(msg) =>
      Ok((AdvanceAll(HandleCUResp(st, msg.vals).(catchUpInProgress := false)), []))
    case Trust(id) => Ok((st.(leader := id), []))
  }
}
