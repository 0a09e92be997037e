/** The learner as it runs: objects updated in place, refining the steps on values. */
module LearnerActor {
  import opened Wrappers
  import opened Group
  import opened Paxos
  import opened Learners

  class LearnerSlotMap {
    var slots: Slots
    var maxSeen: SlotID

    constructor ()
      ensures slots == map[] && maxSeen == 0
    {
      slots, maxSeen := map[], 0;
    }

    method GetSlot(id: SlotID) returns (slot: LearnerSlot)
      modifies this
      ensures slot == SlotAt(old(slots), id)
      ensures slots == old(slots)[id := slot]
      ensures maxSeen == if id > old(maxSeen) then id else old(maxSeen)
    {
      if id !in slots {
        slots := slots[id := LearnerSlot(id, false, ZERO_ROUND, [], 0, Noop, false)];
      }
      if id > maxSeen {
        maxSeen := id;
      }
      slot := slots[id];
    }
  }

  class MultiLearner {
    const id: ID
    const nrOfNodes: nat
    const quorum: nat
    const slots: LearnerSlotMap
    var leader: ID
    var next: SlotID
    var catchUpInProgress: bool
    var dcdChan: seq<Value>   // everything sent to the server so far
    var ucast: seq<Message>   // everything sent to other replicas so far

    function Abstract(): State
      reads this, slots
    {
      State(id, leader, nrOfNodes, quorum, next, slots.slots, slots.maxSeen, catchUpInProgress, dcdChan)
    }

    constructor (id: ID, leader: ID, nrOfNodes: nat, quorum: nat, nextExpectedDcd: SlotID)
      ensures fresh(slots) && ucast == []
      ensures Abstract() == State(id, leader, nrOfNodes, quorum, nextExpectedDcd, map[], 0, false, [])
    {
      this.id, this.leader, this.nrOfNodes, this.quorum := id, leader, nrOfNodes, quorum;
      slots := new LearnerSlotMap();
      next, catchUpInProgress, dcdChan, ucast := nextExpectedDcd, false, [], [];
    }

    // ----- The event loop

    /** One turn of the event loop; ok is false where the Go code would panic. */
    method Handle(ev: Event) returns (ok: bool)
      modifies this, slots
      ensures ok == Step(old(Abstract()), ev).Ok?
      ensures ok ==> Abstract() == Step(old(Abstract()), ev).value.0
      ensures ok ==> ucast == old(ucast) + Step(old(Abstract()), ev).value.1
    {
      ok := true;
      match ev {
        case LearnReceived(learn) => ok := OnLearn(learn);
        case CatchUpRequested(creq) =>
          var vals := HandleCUReq(creq.ranges);
          ucast := ucast + [CatchUpResponseMsg(CatchUpResponse(id, vals))];
        case CatchUpAnswered(cresp) =>
          HandleCUResp(cresp.vals);
          catchUpInProgress := false;
          DeliverAll();
        case Trust(trustID) => leader := trustID;
      }
    }

    method OnLearn(learn: Learn) returns (ok: bool)
      modifies this, slots
      ensures ok == Learners.OnLearn(old(Abstract()), learn).Ok?
      ensures ok ==> Abstract() == Learners.OnLearn(old(Abstract()), learn).value.0
      ensures ok ==> ucast == old(ucast) + Learners.OnLearn(old(Abstract()), learn).value.1
    {
      var learned, verdict;
      ok, learned := HandleLrn(learn);
      if !ok {
        return;
      }
      ok, verdict := LearnVal(learned);
      if !ok {
        return;
      }
      match verdict {
        case Nothing =>
        case Advance => DeliverAll();
        case StartCatchUp(slot) => RequestCatchUp(slot);
      }
    }

    method RequestCatchUp(slot: SlotID)
      modifies this, slots
      ensures Abstract() == StartCatchUpStep(old(Abstract()), slot).0
      ensures ucast == old(ucast) + StartCatchUpStep(old(Abstract()), slot).1
    {
      if catchUpInProgress || id == leader {
        return;
      }
      catchUpInProgress := true;
      var rngs := GetUndecSlots(slot);
      ucast := ucast + [CatchUpRequestMsg(CatchUpRequest(id, rngs))];
    }

    // ----- Learning

    method HandleLrn(msg: Learn) returns (ok: bool, learned: Option<(Value, SlotID)>)
      modifies slots
      ensures ok == Learners.HandleLrn(old(Abstract()), msg).Ok?
      ensures ok ==> (Abstract(), learned) == Learners.HandleLrn(old(Abstract()), msg).value
    {
      ok, learned := true, None;
      var slot := slots.GetSlot(msg.slot);
      if slot.learned {
        return;
      }
      if Compare(slot.rnd, msg.rnd) == 1 {
        return;
      }
      if Compare(slot.rnd, msg.rnd) == -1 {
        slot := slot.(rnd := msg.rnd, learns := NoLearns(nrOfNodes), votes := 0);
        slots.slots := slots.slots[msg.slot := slot];
      }
      if !(0 <= msg.id.paxosID < |slot.learns|) {
        return false, None;
      }
      assert slots.slots == old(slots.slots)[msg.slot := slot];
      if slot.learns[msg.id.paxosID].Some? {
        return;
      }
      slot := slot.(votes := slot.votes + 1, learns := slot.learns[msg.id.paxosID := Some(msg)]);
      slots.slots := slots.slots[msg.slot := slot];
      assert slots.slots == old(slots.slots)[msg.slot := slot];
      if slot.votes >= quorum {
        learned := Some((msg.val, slot.id));
      }
    }

    method LearnVal(learned: Option<(Value, SlotID)>) returns (ok: bool, verdict: Verdict)
      modifies slots
      ensures ok == Learners.LearnVal(old(Abstract()), learned).Ok?
      ensures ok ==> (Abstract(), verdict) == Learners.LearnVal(old(Abstract()), learned).value
    {
      ok, verdict := true, Nothing;
      if learned.None? {
        return;
      }
      var (val, slotID) := learned.value;
      var slot := slots.GetSlot(slotID);
      slot := slot.(learned := true, learnedVal := val);
      slots.slots := slots.slots[slotID := slot];
      assert slots.slots == old(slots.slots)[slotID := slot];
      if slot.id == next {
        verdict := Advance;
      } else if slot.id > next {
        verdict := StartCatchUp(slot.id);
      } else {
        ok := false; // panic("unhandled case in learnValue")
      }
    }

    // ----- Delivery

    method DeliverNext() returns (dcdVal: Option<Value>)
      modifies slots
      ensures (Abstract(), dcdVal) == Adv(old(Abstract()))
    {
      var slot := slots.GetSlot(next);
      if slot.learned && !slot.decided {
        slots.slots := slots.slots[next := slot.(decided := true)];
        assert slots.slots == old(slots.slots)[next := slot.(decided := true)];
        return Some(slot.learnedVal);
      }
      return None;
    }

    method DeliverOne() returns (more: bool)
      modifies this`next, this`dcdChan, slots
      ensures (Abstract(), more) == Learners.DeliverOne(old(Abstract()))
    {
      var dcdVal := DeliverNext();
      if dcdVal.Some? {
        dcdChan := dcdChan + [dcdVal.value];
        next := next + 1;
      }
      more := dcdVal.Some?;
    }

    /** Sends every value that is due; the loop ends because only learned slots are pending. */
    method DeliverAll()
      modifies this`next, this`dcdChan, slots
      ensures Abstract() == AdvanceAll(old(Abstract()))
    {
      ghost var result := AdvanceAll(Abstract());
      var more := true;
      while more
        invariant result == if more then AdvanceAll(Abstract()) else Abstract()
        decreases more, |Pending(slots.slots)|
      {
        DeliveryShrinks(Abstract());
        more := DeliverOne();
      }
    }

    // ----- Catch-up

    method LookUp(i: SlotID) returns (slot: LearnerSlot)
      modifies slots
      ensures Abstract() == Touch(old(Abstract()), i) && slot == SlotAt(old(slots.slots), i)
    {
      slot := slots.GetSlot(i);
    }

    /** The undecided slots of next..slot-1 as ranges. */
    method GetUndecSlots(slot: SlotID) returns (ts: seq<RangeTuple>)
      modifies slots
      ensures Abstract() == TouchRange(old(Abstract()), next, slot)
      ensures ts == UndecRanges(old(slots.slots), next, slot)
    {
      ts := [];
      var from, start := 0, false;
      var i := next;
      while i < slot
        invariant next <= i && (i <= slot || i == next)
        invariant Abstract() == TouchRange(old(Abstract()), next, i)
        invariant (ts, if start then Some(from) else None) == UndecScan(old(slots.slots), next, i)
      {
        var s := LookUp(i);
        if !s.decided {
          if !start {
            start := true;
            from := i;
          }
        } else if start {
          ts := ts + [RangeTuple(from, i - 1)];
          start := false;
        }
        i := i + 1;
      }
      if start {
        ts := ts + [RangeTuple(from, slot - 1)];
      }
    }

    method HandleCUReq(ranges: seq<RangeTuple>) returns (ts: seq<ResponseTuple>)
      modifies slots
      ensures (Abstract(), ts) == Learners.HandleCUReq(old(Abstract()), ranges)
    {
      ts := [];
      for k := 0 to |ranges|
        invariant (Abstract(), ts) == Learners.HandleCUReq(old(Abstract()), ranges[..k])
      {
        assert ranges[..k + 1][..k] == ranges[..k];
        var vals := DecidedInRange(ranges[k]);
        ts := ts + vals;
      }
      assert ranges[..|ranges|] == ranges;
    }

    method DecidedInRange(rng: RangeTuple) returns (ts: seq<ResponseTuple>)
      modifies slots
      ensures Abstract() == TouchRange(old(Abstract()), rng.from, rng.to + 1)
      ensures ts == DecidedIn(old(slots.slots), rng.from, rng.to + 1)
    {
      ts := [];
      var i := rng.from;
      while i < rng.to + 1
        invariant rng.from <= i && (i <= rng.to + 1 || i == rng.from)
        invariant Abstract() == TouchRange(old(Abstract()), rng.from, i)
        invariant ts == DecidedIn(old(slots.slots), rng.from, i)
      {
        var slot := LookUp(i);
        if slot.decided {
          ts := ts + [ResponseTuple(i, slot.learnedVal)];
        }
        i := i + 1;
      }
    }

    method HandleCUResp(vals: seq<ResponseTuple>)
      modifies slots
      ensures Abstract() == Learners.HandleCUResp(old(Abstract()), vals)
    {
      for k := 0 to |vals|
        invariant Abstract() == Learners.HandleCUResp(old(Abstract()), vals[..k])
      {
        assert vals[..k + 1][..k] == vals[..k];
        AdoptDecided(vals[k]);
      }
      assert vals[..|vals|] == vals;
    }

    method AdoptDecided(dec: ResponseTuple)
      modifies slots
      ensures Abstract() == Adopt(old(Abstract()), dec)
    {
      var slot := slots.GetSlot(dec.slot);
      if !slot.learned {
        slot := slot.(learned := true, learnedVal := dec.val);
        slots.slots := slots.slots[dec.slot := slot];
        assert slots.slots == old(slots.slots)[dec.slot := slot];
      }
    }
  }
}
