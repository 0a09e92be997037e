/** The proposer as it runs: objects updated in place, refining the steps on values. */
module ProposerActor {
  import opened Wrappers
  import opened Group
  import opened Paxos
  import opened Proposers
  import F = ProposerFacts

  class ProposerSlotMap {
    var slots: Slots
    var maxSeen: SlotID

    constructor ()
      ensures slots == map[] && maxSeen == 0
    {
      slots, maxSeen := map[], 0;
    }

    method GetSlot(id: SlotID) returns (slot: ProposerSlot)
      modifies this
      ensures slot == SlotAt(old(slots), id)
      ensures slots == old(slots)[id := slot]
      ensures maxSeen == if id > old(maxSeen) then id else old(maxSeen)
    {
      if id !in slots {
        slots := slots[id := ProposerSlot(id, None, 0)];
      }
      if id > maxSeen {
        maxSeen := id;
      }
      slot := slots[id];
    }
  }

  /** With `sent` broadcast, sending on leads to the given state and all these messages. */
  ghost predicate SendsRest(st: State, sent: seq<Message>, result: State, all: seq<Message>) {
    SendAccepts(st).0 == result && sent + SendAccepts(st).1 == all
  }

  lemma SendsNext(st: State, sent: seq<Message>, result: State, all: seq<Message>)
    requires SendsRest(st, sent, result, all)
    ensures var (u, accept) := SendOne(st);
            && u.adu == st.adu && u.alpha == st.alpha
            && (if accept.Some?
                then st.nextSlot <= st.adu + st.alpha && u.nextSlot == st.nextSlot + 1 &&
                     SendsRest(u, sent + [AcceptMsg(accept.value)], result, all)
                else u == result && sent == all)
  {
    var (u, accept) := SendOne(st);
    if accept.Some? {
      var rest := SendAccepts(u).1;
      assert sent + ([AcceptMsg(accept.value)] + rest) == sent + [AcceptMsg(accept.value)] + rest;
    }
  }

  /** With `sent` broadcast, resending from slot i on leads to the given state and all these messages. */
  ghost predicate ResendsRest(st: State, i: SlotID, sent: seq<Message>, result: State, all: seq<Message>) {
    ResendFrom(st, i).0 == result && sent + ResendFrom(st, i).1 == all
  }

  lemma ResendsNext(st: State, i: SlotID, sent: seq<Message>, result: State, all: seq<Message>)
    requires i < st.nextSlot && ResendsRest(st, i, sent, result, all)
    ensures var (u, out) := ResendSlot(st, i);
            ResendsRest(u, i + 1, sent + out, result, all)
  {
    var (u, out) := ResendSlot(st, i);
    var rest := ResendFrom(u, i + 1).1;
    assert sent + (out + rest) == (sent + out) + rest;
  }

  class MultiProposer {
    const id: ID
    const alpha: nat
    const nrOfNodes: nat
    const quorum: nat
    const slots: ProposerSlotMap
    var leader: ID
    var crnd: Round
    var nextSlot: SlotID
    var adu: SlotID
    var reqQueue: seq<Value>
    var phaseOnePromises: Promises
    var phaseOneCount: nat
    var phaseOneDone: bool
    var bcast: seq<Message> // everything broadcast so far

    function Abstract(): State
      reads this, slots
    {
      State(id, leader, alpha, nrOfNodes, quorum, crnd, nextSlot, adu, slots.slots, slots.maxSeen,
            reqQueue, phaseOnePromises, phaseOneCount, phaseOneDone)
    }

    constructor (id: ID, leader: ID, alpha: nat, nrOfNodes: nat, quorum: nat, firstSlot: SlotID)
      requires firstSlot >= 1
      ensures fresh(slots) && bcast == []
      ensures Abstract() == State(id, leader, alpha, nrOfNodes, quorum, NewProposerRound(id), firstSlot, firstSlot - 1,
                                  map[], 0, [], [], 0, false)
    {
      this.id, this.leader, this.alpha := id, leader, alpha;
      this.nrOfNodes, this.quorum := nrOfNodes, quorum;
      crnd := NewProposerRound(id);
      nextSlot, adu := firstSlot, firstSlot - 1;
      slots := new ProposerSlotMap();
      reqQueue, phaseOnePromises, phaseOneCount, phaseOneDone := [], [], 0, false;
      bcast := [];
    }

    // ----- The event loop

    /** One turn of the event loop; ok is false where the Go code would panic. */
    method Handle(ev: Event) returns (ok: bool)
      modifies this, slots
      ensures ok == Step(old(Abstract()), ev).Ok?
      ensures ok ==> Stepped(old(Abstract()), ev, old(bcast))
    {
      ok := true;
      match ev {
        case NewDecided => OnNewDecided();
        case ClientValue(val) => OnClientValue(val);
        case Trust(trustID) => OnTrust(trustID);
        case PromiseReceived(promise) => ok := OnPromise(promise);
        case PhaseOneTimeout => OnPhaseOneTimeout();
        case PhaseTwoTimeout => ResendAcceptsIfNecessary();
      }
    }

    /** The state and the broadcasts are those that the step on ev gives. */
    ghost predicate Stepped(was: State, ev: Event, sent: seq<Message>)
      reads this, slots
    {
      Step(was, ev).Ok? && Abstract() == Step(was, ev).value.0 && bcast == sent + Step(was, ev).value.1
    }

    method OnNewDecided()
      modifies this, slots
      ensures Stepped(old(Abstract()), NewDecided, old(bcast))
    {
      AdvanceAdu();
      if IsLeaderAndPhaseOneComplete() {
        SendAccept();
      }
    }

    method OnClientValue(val: Value)
      modifies this, slots
      ensures Stepped(old(Abstract()), ClientValue(val), old(bcast))
    {
      if leader != id {
        return;
      }
      reqQueue := reqQueue + [val];
      if phaseOneDone {
        SendAccept();
      }
    }

    method OnTrust(trustID: ID)
      modifies this, slots
      ensures Stepped(old(Abstract()), Trust(trustID), old(bcast))
    {
      if leader == trustID {
        return;
      }
      leader := trustID;
      if leader != id {
        return;
      }
      StartPhaseOne(true);
    }

    method OnPromise(promise: Promise) returns (ok: bool)
      modifies this, slots
      ensures ok == Step(old(Abstract()), PromiseReceived(promise)).Ok?
      ensures ok ==> Stepped(old(Abstract()), PromiseReceived(promise), old(bcast))
    {
      var isQuorum;
      ok, isQuorum := HandleProm(promise);
      if !ok || !isQuorum {
        return;
      }
      CompletePhaseOne();
    }

    method CompletePhaseOne()
      modifies this, slots
      ensures Abstract() == Proposers.CompletePhaseOne(old(Abstract())).0
      ensures bcast == old(bcast) + Proposers.CompletePhaseOne(old(Abstract())).1
    {
      SetStateFromPromises();
      phaseOneDone := true;
      nextSlot := adu + 1;
      SendAccept();
    }

    method OnPhaseOneTimeout()
      modifies this, slots
      ensures Stepped(old(Abstract()), PhaseOneTimeout, old(bcast))
    {
      if leader != id || phaseOneDone {
        return;
      }
      StartPhaseOne(true);
    }

    // ----- Phase one

    method StartPhaseOne(clearRequestQueue: bool)
      modifies this, slots
      ensures Abstract() == Proposers.StartPhaseOne(old(Abstract()), clearRequestQueue).0
      ensures bcast == old(bcast) + Proposers.StartPhaseOne(old(Abstract()), clearRequestQueue).1
    {
      UpdateStatePrePhaseOne(clearRequestQueue);
      Broadcast(PrepareMsg(Prepare(id, crnd, adu)));
    }

    method UpdateStatePrePhaseOne(clearRequestQueue: bool)
      modifies this, slots
      ensures Abstract() == PrePhaseOne(old(Abstract()), clearRequestQueue)
      ensures bcast == old(bcast)
    {
      ResetPhaseOneData();
      ResetSentCountersInAlphaWindow();
      crnd := NextRound(crnd);
      if clearRequestQueue {
        reqQueue := [];
      }
    }

    method ResetPhaseOneData()
      modifies this`phaseOneDone, this`phaseOneCount, this`phaseOnePromises
      ensures !phaseOneDone && phaseOneCount == 0 && phaseOnePromises == NoPromises(nrOfNodes)
    {
      phaseOneDone := false;
      phaseOneCount := 0;
      phaseOnePromises := NoPromises(nrOfNodes);
    }

    method ResetSentCountersInAlphaWindow()
      modifies slots
      ensures Abstract() == ResetCounters(old(Abstract()), nextSlot)
    {
      var i := adu + 1;
      while i < nextSlot
        invariant adu + 1 <= i
        invariant i <= nextSlot || i == adu + 1
        invariant Abstract() == ResetCounters(old(Abstract()), i)
      {
        ResetSentCount(i);
        i := i + 1;
      }
    }

    method ResetSentCount(i: SlotID)
      modifies slots
      ensures Abstract() == Put(old(Abstract()), i, SlotAt(old(slots.slots), i).(sentCount := 0))
    {
      var slot := slots.GetSlot(i);
      slots.slots := slots.slots[i := slot.(sentCount := 0)];
      assert slots.slots == old(slots.slots)[i := slot.(sentCount := 0)];
    }

    method SetStateFromPromises()
      modifies slots
      ensures Abstract() == MergePromises(old(Abstract()), phaseOnePromises)
    {
      for k := 0 to |phaseOnePromises|
        invariant Abstract() == MergePromises(old(Abstract()), phaseOnePromises[..k])
      {
        assert phaseOnePromises[..k + 1][..k] == phaseOnePromises[..k];
        if phaseOnePromises[k].Some? {
          SetStateFromPromise(phaseOnePromises[k].value);
        }
      }
      assert phaseOnePromises[..|phaseOnePromises|] == phaseOnePromises;
    }

    method SetStateFromPromise(promise: Promise)
      modifies slots
      ensures Abstract() == MergeVotes(old(Abstract()), promise.accSlots)
    {
      for k := 0 to |promise.accSlots|
        invariant Abstract() == MergeVotes(old(Abstract()), promise.accSlots[..k])
      {
        assert promise.accSlots[..k + 1][..k] == promise.accSlots[..k];
        SetStateFromVote(promise.accSlots[k]);
      }
      assert promise.accSlots[..|promise.accSlots|] == promise.accSlots;
    }

    method SetStateFromVote(accSlot: AcceptorSlot)
      modifies slots
      ensures Abstract() == MergeVote(old(Abstract()), accSlot)
    {
      if accSlot.id <= adu {
        return;
      }
      var slot := slots.GetSlot(accSlot.id);
      if slot.proposal.Some? && Compare(slot.proposal.value.rnd, accSlot.vrnd) >= 0 {
        return;
      }
      slot := slot.(proposal := Some(Accept(ZERO_ID, 0, accSlot.vrnd, accSlot.vval)));
      slots.slots := slots.slots[accSlot.id := slot];
      assert slots.slots == old(slots.slots)[accSlot.id := slot];
    }

    method HandleProm(msg: Promise) returns (ok: bool, isQuorum: bool)
      modifies this`phaseOnePromises, this`phaseOneCount
      ensures ok == Proposers.HandleProm(old(Abstract()), msg).Ok?
      ensures ok ==> (Abstract(), isQuorum) == Proposers.HandleProm(old(Abstract()), msg).value
    {
      ok, isQuorum := true, false;
      if phaseOneDone {
        return;
      }
      if Compare(crnd, msg.rnd) != 0 {
        return;
      }
      if !(0 <= msg.id.paxosID < |phaseOnePromises|) {
        return false, false;
      }
      if phaseOnePromises[msg.id.paxosID].Some? {
        return;
      }
      phaseOnePromises := phaseOnePromises[msg.id.paxosID := Some(msg)];
      phaseOneCount := phaseOneCount + 1;
      isQuorum := phaseOneCount >= quorum;
    }

    // ----- Phase two

    method SendAccept()
      modifies this, slots
      ensures Abstract() == SendAccepts(old(Abstract())).0
      ensures bcast == old(bcast) + SendAccepts(old(Abstract())).1
    {
      ghost var result := SendAccepts(Abstract()).0;
      ghost var all := bcast + SendAccepts(Abstract()).1;
      var more := true;
      while more
        invariant adu == old(adu)
        invariant if more then SendsRest(Abstract(), bcast, result, all) else Abstract() == result && bcast == all
        decreases more, adu + alpha + 1 - nextSlot
      {
        more := SendTurn(result, all);
      }
    }

    method SendTurn(ghost result: State, ghost all: seq<Message>) returns (more: bool)
      requires SendsRest(Abstract(), bcast, result, all)
      modifies this, slots
      ensures adu == old(adu)
      ensures more ==> old(nextSlot) <= adu + alpha && nextSlot == old(nextSlot) + 1
      ensures if more then SendsRest(Abstract(), bcast, result, all) else Abstract() == result && bcast == all
    {
      ghost var before, sent := Abstract(), bcast;
      more := SendNextAccept();
      SendsNext(before, sent, result, all);
    }

    /** One turn of the sending loop. */
    method SendNextAccept() returns (sent: bool)
      modifies this, slots
      ensures Abstract() == SendOne(old(Abstract())).0
      ensures sent == SendOne(old(Abstract())).1.Some?
      ensures bcast == old(bcast) + if sent then [AcceptMsg(SendOne(old(Abstract())).1.value)] else []
    {
      if !InAlphaRange(nextSlot, adu, alpha) {
        return false;
      }
      var ns := slots.GetSlot(nextSlot);
      var acc := GenAccept(nextSlot);
      if acc.Some? {
        Broadcast(AcceptMsg(acc.value));
        nextSlot := nextSlot + 1;
      }
      return acc.Some?;
    }

    method GenAccept(i: SlotID) returns (acc: Option<Accept>)
      requires i in slots.slots
      modifies this`reqQueue, slots`slots
      ensures (Abstract(), acc) == Proposers.GenAccept(old(Abstract()), i)
    {
      var next := slots.slots[i];
      var val;
      if next.proposal.Some? {
        val := next.proposal.value.val;
      } else if |reqQueue| == 0 {
        return None;
      } else {
        val := reqQueue[0];
        reqQueue := reqQueue[1..];
      }
      var accept := Accept(id, next.id, crnd, val);
      slots.slots := slots.slots[i := next.(proposal := Some(accept))];
      return Some(accept);
    }

    method AdvanceAdu()
      modifies this`adu
      ensures adu == old(adu) + 1
    {
      adu := adu + 1;
    }

    // ----- Resending

    method ResendAcceptsIfNecessary()
      modifies this, slots
      ensures Abstract() == (if LeaderAndPhaseOneComplete(old(Abstract()))
                             then ResendFrom(old(Abstract()), old(adu) + 1).0 else old(Abstract()))
      ensures bcast == old(bcast) + (if LeaderAndPhaseOneComplete(old(Abstract()))
                                     then ResendFrom(old(Abstract()), old(adu) + 1).1 else [])
    {
      if !IsLeaderAndPhaseOneComplete() {
        return;
      }
      ResendWindow();
    }

    method ResendWindow()
      modifies this, slots
      ensures Abstract() == ResendFrom(old(Abstract()), old(adu) + 1).0
      ensures bcast == old(bcast) + ResendFrom(old(Abstract()), old(adu) + 1).1
    {
      var i := adu + 1;
      ghost var result := ResendFrom(Abstract(), i).0;
      ghost var all := bcast + ResendFrom(Abstract(), i).1;
      while i < nextSlot
        invariant nextSlot == old(nextSlot)
        invariant ResendsRest(Abstract(), i, bcast, result, all)
      {
        ResendTurn(i, result, all);
        i := i + 1;
      }
    }

    method ResendTurn(i: SlotID, ghost result: State, ghost all: seq<Message>)
      requires i < nextSlot && ResendsRest(Abstract(), i, bcast, result, all)
      modifies this, slots
      ensures nextSlot == old(nextSlot)
      ensures ResendsRest(Abstract(), i + 1, bcast, result, all)
    {
      ghost var before, sent := Abstract(), bcast;
      ResendNext(i);
      ResendsNext(before, i, sent, result, all);
    }

    method ResendNext(i: SlotID)
      modifies this, slots
      ensures Abstract() == ResendSlot(old(Abstract()), i).0
      ensures bcast == old(bcast) + ResendSlot(old(Abstract()), i).1
    {
      var slot := slots.GetSlot(i);
      ResendAccept(slot.proposal);
    }

    method ResendAccept(acc: Option<Accept>)
      modifies this, slots
      ensures Abstract() == if acc.Some? then Proposers.ResendAccept(old(Abstract()), acc.value).0 else old(Abstract())
      ensures bcast == old(bcast) + if acc.Some? then Proposers.ResendAccept(old(Abstract()), acc.value).1 else []
    {
      if acc.Some? {
        var reached := HasReachedResendThreshold(acc.value.slot);
        if reached {
          StartPhaseOne(false);
          return;
        }
        Broadcast(AcceptMsg(acc.value));
        IncrementSentCountFor(acc.value.slot);
      }
    }

    method IncrementSentCountFor(i: SlotID)
      requires i in slots.slots && i <= slots.maxSeen
      modifies slots
      ensures slots.slots == old(slots.slots)[i := old(slots.slots)[i].(sentCount := old(slots.slots)[i].sentCount + 1)]
      ensures slots.maxSeen == old(slots.maxSeen)
    {
      var s := slots.GetSlot(i);
      slots.slots := slots.slots[i := s.(sentCount := s.sentCount + 1)];
    }

    method HasReachedResendThreshold(i: SlotID) returns (reached: bool)
      modifies slots
      ensures Abstract() == Touch(old(Abstract()), i)
      ensures reached == (slots.slots[i].sentCount >= RESENDS_BEFORE_RESTARTING_PHASE_ONE)
    {
      var s := slots.GetSlot(i);
      reached := s.sentCount >= RESENDS_BEFORE_RESTARTING_PHASE_ONE;
    }

    // ----- Utilities

    method Broadcast(msg: Message)
      modifies this`bcast
      ensures bcast == old(bcast) + [msg]
    {
      bcast := bcast + [msg];
    }

    predicate IsLeaderAndPhaseOneComplete()
      reads this, slots
    {
      LeaderAndPhaseOneComplete(Abstract())
    }
  }
}
