/**
 * The MultiPaxos acceptor (multipaxos/acceptor.go, paxos/aslots.go, paxos/utils.go).
 *
 * One promised round covers all slots; each slot records the last vote cast in it.
 * `PrepareStep` and `AcceptStep` are the steps that the class's handlers refine.
 */
module Acceptors {
  import opened Wrappers
  import opened Group
  import opened Paxos

  type Slots = map<SlotID, AcceptorSlot>

  datatype State = State(id: ID, lowSlot: SlotID, slots: Slots, rnd: Round, maxSeen: SlotID)

  function FreshSlot(i: SlotID): AcceptorSlot {
    AcceptorSlot(i, ZERO_ROUND, Noop)
  }

  /** The slot that a lookup of i yields, whether or not it exists yet. */
  function SlotAt(slots: Slots, i: SlotID): AcceptorSlot {
    if i in slots then slots[i] else FreshSlot(i)
  }

  predicate Voted(slots: Slots, i: SlotID) {
    Less(ZERO_ROUND, SlotAt(slots, i).vrnd)
  }

  /** The votes held in slots lo..hi-1, in slot order. */
  function VotesIn(slots: Slots, lo: SlotID, hi: SlotID): seq<AcceptorSlot> {
    if hi <= lo then []
    else VotesIn(slots, lo, hi - 1) + if Voted(slots, hi - 1) then [SlotAt(slots, hi - 1)] else []
  }

  /** Looking up the slots lo..hi-1 creates those that are missing. */
  function Touch(slots: Slots, lo: SlotID, hi: SlotID): (r: Slots)
    ensures forall i: SlotID :: SlotAt(r, i) == SlotAt(slots, i)
    ensures forall i: SlotID :: i in r <==> i in slots || lo <= i < hi
  {
    if hi <= lo then slots
    else
      var t := Touch(slots, lo, hi - 1);
      t[hi - 1 := SlotAt(t, hi - 1)]
  }

  function Padding(slot: SlotID, maxSeen: SlotID): seq<AcceptorSlot> {
    if slot >= maxSeen then seq(slot - maxSeen, _ => FreshSlot(0)) else []
  }

  function PrepareStep(st: State, msg: Prepare): (State, Option<Promise>) {
    if !Less(st.rnd, msg.crnd) then (st, None)
    else
      (st.(rnd := msg.crnd, slots := Touch(st.slots, msg.slot, st.maxSeen + 1)),
       Some(Promise(st.id, msg.crnd,
                    Padding(msg.slot, st.maxSeen) + VotesIn(st.slots, msg.slot, st.maxSeen + 1), [])))
  }

  function AcceptStep(st: State, msg: Accept): (State, Option<Learn>) {
    if msg.slot < st.lowSlot then (st, None)
    else
      var slot := SlotAt(st.slots, msg.slot);
      var seen := st.(slots := st.slots[msg.slot := slot],
                      maxSeen := if msg.slot > st.maxSeen then msg.slot else st.maxSeen);
      if Less(msg.rnd, st.rnd) || msg.rnd == slot.vrnd then (seen, None)
      else
        (seen.(slots := st.slots[msg.slot := AcceptorSlot(slot.id, msg.rnd, msg.val)], rnd := msg.rnd),
         Some(Learn(st.id, slot.id, msg.rnd, msg.val, [])))
  }

  /** With ARec reconfiguration, what comes from another epoch is dropped. */
  function PrepareStepAr(st: State, msg: Prepare): (State, Option<Promise>) {
    if msg.id.epoch != st.id.epoch then (st, None) else PrepareStep(st, msg)
  }

  function AcceptStepAr(st: State, msg: Accept): (State, Option<Learn>) {
    if msg.id.epoch != st.id.epoch then (st, None) else AcceptStep(st, msg)
  }

  /** With Live Replacement, answers carry the acceptor's epoch vector. */
  function PrepareStepLr(st: State, msg: Prepare, epochs: seq<Epoch>): (State, Option<Promise>) {
    var (t, promise) := PrepareStep(st, msg);
    (t, if promise.Some? then Some(promise.value.(epochVector := epochs)) else None)
  }

  function AcceptStepLr(st: State, msg: Accept, epochs: seq<Epoch>): (State, Option<Learn>) {
    var (t, learn) := AcceptStep(st, msg);
    (t, if learn.Some? then Some(learn.value.(epochVector := epochs)) else None)
  }

  /** The slots lo..hi-1 that exist, and the highest of them (0 if there is none). */
  function CopyRange(slots: Slots, lo: SlotID, hi: SlotID): (Slots, SlotID) {
    if hi <= lo then (map[], 0)
    else
      var (copy, maxSeen) := CopyRange(slots, lo, hi - 1);
      if hi - 1 in slots then (copy[hi - 1 := slots[hi - 1]], hi - 1) else (copy, maxSeen)
  }

  lemma {:induction false} VotesInMember(slots: Slots, lo: SlotID, hi: SlotID, e: AcceptorSlot)
    ensures e in VotesIn(slots, lo, hi) <==> exists i :: lo <= i < hi && Voted(slots, i) && e == SlotAt(slots, i)
  {
    if lo < hi {
      VotesInMember(slots, lo, hi - 1, e);
      if e in VotesIn(slots, lo, hi) && e !in VotesIn(slots, lo, hi - 1) {
        assert Voted(slots, hi - 1) && e == SlotAt(slots, hi - 1);
      }
    }
  }

  lemma {:induction false} VotesInTouched(slots: Slots, slots': Slots, lo: SlotID, hi: SlotID)
    requires forall i :: lo <= i < hi ==> SlotAt(slots, i) == SlotAt(slots', i)
    ensures VotesIn(slots, lo, hi) == VotesIn(slots', lo, hi)
  {
    if lo < hi {
      VotesInTouched(slots, slots', lo, hi - 1);
      assert SlotAt(slots, hi - 1) == SlotAt(slots', hi - 1);
    }
  }

  /** Looking up one more slot finds it as it was. */
  lemma TouchNext(slots: Slots, lo: SlotID, i: SlotID)
    requires lo <= i
    ensures var t := Touch(slots, lo, i);
            && Touch(slots, lo, i + 1) == t[i := SlotAt(t, i)]
            && SlotAt(t, i) == SlotAt(slots, i) && (Voted(t, i) <==> Voted(slots, i))
  {
  }

  class AcceptorSlotMap {
    var slots: Slots
    var rnd: Round
    var maxSeen: SlotID

    constructor ()
      ensures slots == map[] && rnd == ZERO_ROUND && maxSeen == 0
    {
      slots, rnd, maxSeen := map[], ZERO_ROUND, 0;
    }

    method GetSlot(id: SlotID) returns (slot: AcceptorSlot)
      modifies this`slots, this`maxSeen
      ensures slot == SlotAt(old(slots), id)
      ensures slots == old(slots)[id := slot]
      ensures maxSeen == if id > old(maxSeen) then id else old(maxSeen)
    {
      if id !in slots {
        slots := slots[id := AcceptorSlot(id, ZERO_ROUND, Noop)];
      }
      if id > maxSeen {
        maxSeen := id;
      }
      slot := slots[id];
    }
  }

  class MultiAcceptor {
    var id: ID
    var lowSlot: SlotID
    var slots: AcceptorSlotMap

    function Abstract(): State
      reads this, slots
    {
      State(id, lowSlot, slots.slots, slots.rnd, slots.maxSeen)
    }

    constructor (id: ID, nextExpectedDcd: SlotID)
      ensures fresh(slots)
      ensures Abstract() == State(id, nextExpectedDcd, map[], ZERO_ROUND, nextExpectedDcd)
    {
      this.id, lowSlot := id, nextExpectedDcd;
      slots := new AcceptorSlotMap();
      new;
      slots.maxSeen := lowSlot;
    }

    /** The loop of handlePrep: looks up the slots from..maxSeen and keeps the voted ones. */
    method CollectVotes(from: SlotID) returns (votes: seq<AcceptorSlot>)
      modifies slots`slots, slots`maxSeen
      ensures slots.slots == Touch(old(slots.slots), from, old(slots.maxSeen) + 1)
      ensures slots.maxSeen == old(slots.maxSeen)
      ensures votes == VotesIn(old(slots.slots), from, old(slots.maxSeen) + 1)
    {
      votes := [];
      var i, max := from, slots.maxSeen;
      ghost var was := slots.slots;
      while i <= max
        invariant from <= i <= if from <= max then max + 1 else from
        invariant slots.slots == Touch(was, from, i) && slots.maxSeen == max
        invariant votes == VotesIn(was, from, i)
      {
        var vote := CollectVote(i);
        TouchNext(was, from, i);
        votes := votes + vote;
        i := i + 1;
      }
    }

    method CollectVote(i: SlotID) returns (vote: seq<AcceptorSlot>)
      requires i <= slots.maxSeen
      modifies slots`slots, slots`maxSeen
      ensures slots.slots == old(slots.slots)[i := SlotAt(old(slots.slots), i)]
      ensures slots.maxSeen == old(slots.maxSeen)
      ensures vote == if Voted(old(slots.slots), i) then [SlotAt(old(slots.slots), i)] else []
    {
      var slot := slots.GetSlot(i);
      vote := if Compare(slot.vrnd, ZERO_ROUND) > 0 then [slot] else [];
    }

    method HandlePrep(msg: Prepare) returns (promise: Option<Promise>)
      modifies slots
      ensures (Abstract(), promise) == PrepareStep(old(Abstract()), msg)
    {
      if Compare(slots.rnd, msg.crnd) >= 0 {
        return None;
      }
      slots.rnd := msg.crnd;
      var max := slots.maxSeen;
      var accslots: seq<AcceptorSlot>;
      if msg.slot >= max {
        accslots := seq(msg.slot - max, _ => FreshSlot(0));
      } else {
        accslots := [];
      }
      var votes := CollectVotes(msg.slot);
      return Some(Promise(id, slots.rnd, accslots + votes, []));
    }

    method HandleAcc(msg: Accept) returns (learn: Option<Learn>)
      modifies slots
      ensures (Abstract(), learn) == AcceptStep(old(Abstract()), msg)
    {
      if msg.slot < lowSlot {
        return None;
      }
      var slot := slots.GetSlot(msg.slot);
      if Compare(slots.rnd, msg.rnd) == 1 || Compare(msg.rnd, slot.vrnd) == 0 {
        return None;
      }
      if Compare(slots.rnd, msg.rnd) == -1 {
        slots.rnd := msg.rnd;
      }
      slot := slot.(vrnd := msg.rnd);
      slot := slot.(vval := msg.val);
      slots.slots := slots.slots[msg.slot := slot];
      assert slots.slots == old(slots.slots)[msg.slot := slot];
      return Some(Learn(id, slot.id, slots.rnd, slot.vval, []));
    }

    // ----- The handlers for reconfiguration, which repeat the plain ones but for a guard or a field

    method HandlePrepAr(msg: Prepare) returns (promise: Option<Promise>)
      modifies slots
      ensures (Abstract(), promise) == PrepareStepAr(old(Abstract()), msg)
    {
      if msg.id.epoch != id.epoch {
        return None;
      }
      promise := HandlePrep(msg);
    }

    method HandleAccAr(msg: Accept) returns (learn: Option<Learn>)
      modifies slots
      ensures (Abstract(), learn) == AcceptStepAr(old(Abstract()), msg)
    {
      if msg.slot < lowSlot || msg.id.epoch != id.epoch {
        return None;
      }
      learn := HandleAcc(msg);
    }

    method HandlePrepLr(msg: Prepare, epochs: seq<Epoch>) returns (promise: Option<Promise>)
      modifies slots
      ensures (Abstract(), promise) == PrepareStepLr(old(Abstract()), msg, epochs)
    {
      promise := HandlePrep(msg);
      if promise.Some? {
        promise := Some(promise.value.(epochVector := epochs));
      }
    }

    method HandleAccLr(msg: Accept, epochs: seq<Epoch>) returns (learn: Option<Learn>)
      modifies slots
      ensures (Abstract(), learn) == AcceptStepLr(old(Abstract()), msg, epochs)
    {
      learn := HandleAcc(msg);
      if learn.Some? {
        learn := Some(learn.value.(epochVector := epochs));
      }
    }

    // ----- Acceptor state

    method SetState(slots: AcceptorSlotMap)
      modifies this`slots
      ensures this.slots == slots
    {
      this.slots := slots;
    }

    method SetLowSlot(slot: SlotID)
      modifies this`lowSlot
      ensures lowSlot == slot
    {
      lowSlot := slot;
    }

    /**
     * The state handed to a new replica: the round and the existing slots above afterSlot.
     * After the release the acceptor takes the identity that the group manager has by then.
     */
    method HandleStateRequest(afterSlot: SlotID, newID: ID) returns (state: AcceptorSlotMap)
      modifies this`id
      ensures fresh(state) && state.rnd == slots.rnd
      ensures (state.slots, state.maxSeen) == CopyRange(slots.slots, afterSlot + 1, slots.maxSeen + 1)
      ensures id == newID
    {
      state := CopyAccSlotMapRange(afterSlot, slots);
      id := newID;
    }
  }

  method CopyAccSlotMapRange(afterSlotID: SlotID, source: AcceptorSlotMap?) returns (sm: AcceptorSlotMap)
    ensures fresh(sm)
    ensures source == null ==> sm.slots == map[] && sm.rnd == ZERO_ROUND && sm.maxSeen == 0
    ensures source != null ==>
              && sm.rnd == source.rnd
              && (sm.slots, sm.maxSeen) == CopyRange(source.slots, afterSlotID + 1, source.maxSeen + 1)
  {
    sm := new AcceptorSlotMap();
    if source == null {
      return;
    }
    sm.rnd := source.rnd;
    var slotCounter := afterSlotID + 1;
    while slotCounter <= source.maxSeen
      invariant afterSlotID + 1 <= slotCounter
      invariant slotCounter <= source.maxSeen + 1 || slotCounter == afterSlotID + 1
      invariant sm.rnd == source.rnd
      invariant (sm.slots, sm.maxSeen) == CopyRange(source.slots, afterSlotID + 1, slotCounter)
    {
      if slotCounter in source.slots {
        sm.slots := sm.slots[slotCounter := source.slots[slotCounter]];
        sm.maxSeen := slotCounter;
      }
      slotCounter := slotCounter + 1;
    }
  }
}
