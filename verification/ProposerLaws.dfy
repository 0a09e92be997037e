/**
 * What each turn of the proposer's event loop achieves, and what becomes of the client
 * values over any series of turns.
 */
module ProposerLaws {
  import opened Wrappers
  import opened Group
  import opened Paxos
  import opened Proposers
  import opened ProposerFacts
  import opened Progress
  import M = MultiPaxos

  // ----- The window of slots that are proposed but not decided

  predicate InWindow(st: State, i: SlotID) {
    st.adu < i < st.nextSlot
  }

  /** Slot i holds an accept of the proposer's own, of the current round once phase one is complete. */
  predicate Opened(st: State, i: SlotID) {
    match ProposalAt(st, i)
    case None => false
    case Some(a) => a == Accept(st.id, i, a.rnd, a.val) && (st.phaseOneDone ==> a.rnd == st.crnd)
  }

  ghost predicate Sound(st: State) {
    Keyed(st) && forall i: SlotID :: InWindow(st, i) ==> Opened(st, i)
  }

  // ----- What a turn receives, restarts and sends

  predicate Leads(st: State) {
    st.leader == st.id && st.phaseOneDone
  }

  function Received(st: State, ev: Event): seq<Value> {
    if ev.ClientValue? && st.leader == st.id then [ev.val] else []
  }

  /** The proposer is elected leader, or its phase one has taken too long. */
  predicate Restarts(st: State, ev: Event) {
    || (ev.Trust? && ev.id == st.id && st.leader != st.id)
    || (ev.PhaseOneTimeout? && st.leader == st.id && !st.phaseOneDone)
  }

  predicate CompletesPhaseOne(st: State, ev: Event) {
    ev.PromiseReceived? && HandleProm(st, ev.promise).Ok? && HandleProm(st, ev.promise).value.1
  }

  /** The votes reported by the promises that complete phase one. */
  function Reported(st: State, ev: Event): seq<AcceptorSlot> {
    if CompletesPhaseOne(st, ev) then AllVotes(st.phaseOnePromises[ev.promise.id.paxosID := Some(ev.promise)]) else []
  }

  predicate HasVote(es: seq<AcceptorSlot>, i: SlotID) {
    exists e :: e in es && e.id == i
  }

  /** The values of the accepts for slots that had neither a proposal nor a reported vote. */
  function NewValues(slots: Slots, es: seq<AcceptorSlot>, out: seq<Message>): seq<Value>
    decreases |out|
  {
    if out == [] then []
    else
      (if out[0].AcceptMsg? && SlotAt(slots, out[0].accept.slot).proposal.None? && !HasVote(es, out[0].accept.slot)
       then [out[0].accept.val] else [])
      + NewValues(slots, es, out[1..])
  }

  /**
   * Out is one accept of the current round for each slot from first on, in slot order, up to slot
   * adu + alpha or until there is no value for the next slot.
   */
  ghost predicate Fills(id: ID, rnd: Round, r: State, first: SlotID, out: seq<Message>) {
    && r.nextSlot == first + |out|
    && (forall k: nat :: k < |out| ==> FilledWith(id, rnd, r, first + k, out[k]))
    && (out != [] ==> r.nextSlot - 1 <= r.adu + r.alpha)
    && (r.nextSlot > r.adu + r.alpha || (r.reqQueue == [] && ProposalAt(r, r.nextSlot).None?))
  }

  ghost predicate FilledWith(id: ID, rnd: Round, r: State, i: SlotID, m: Message) {
    m.AcceptMsg? && m.accept == Accept(id, i, rnd, m.accept.val) && ProposalAt(r, i) == Some(m.accept)
  }

  // ----- Sending

  /** Accepts for the slots from i on, in slot order. */
  ghost predicate ForSlotsFrom(i: SlotID, out: seq<Message>) {
    forall k: nat :: k < |out| ==> out[k].AcceptMsg? && out[k].accept.slot == i + k
  }

  lemma {:induction false} FreshIsNew(st: State, u: State, es: seq<AcceptorSlot>, i: SlotID, out: seq<Message>)
    requires ForSlotsFrom(i, out)
    requires forall j: SlotID :: j >= i ==> (ProposalAt(u, j).None? <==> ProposalAt(st, j).None? && !HasVote(es, j))
    ensures Fresh(u, i, out) == NewValues(st.slots, es, out)
    decreases |out|
  {
    if out != [] {
      assert out[0].accept.slot == i;
      assert forall k: nat :: k < |out[1..]| ==> out[1..][k] == out[k + 1];
      FreshIsNew(st, u, es, i + 1, out[1..]);
    }
  }

  lemma {:induction false} SendingInWindow(st: State)
    ensures var (r, out) := SendAccepts(st);
            r.adu == st.adu && r.alpha == st.alpha && (out != [] ==> r.nextSlot - 1 <= st.adu + st.alpha)
    decreases st.adu + st.alpha + 1 - st.nextSlot
  {
    var (u, accept) := SendOne(st);
    if accept.Some? {
      SendingInWindow(u);
      assert SendAccepts(u).1 == [] ==> SendAccepts(u).0.nextSlot == u.nextSlot;
    }
  }

  /** Sending, from a state that is sound: the slots filled, the queue, and what stays. */
  lemma SendingLaw(st: State)
    requires Keyed(st)
    ensures var (r, out) := SendAccepts(st);
            && Fills(st.id, st.crnd, r, st.nextSlot, out)
            && SendEffect(st, r, out)
            && st.reqQueue == Fresh(st, st.nextSlot, out) + r.reqQueue
            && ForSlotsFrom(st.nextSlot, out)
  {
    var (r, out) := SendAccepts(st);
    SendAcceptsEffect(st);
    SendsAllItCan(st);
    SendingInWindow(st);
    forall k: nat | k < |out|
      ensures FilledWith(st.id, st.crnd, r, st.nextSlot + k, out[k])
    {
      assert IsProposal(r, st.nextSlot + k, out[k]);
      assert AcceptFor(st, r, st.nextSlot + k);
    }
  }

  lemma SendingSound(st: State)
    requires Sound(st) && st.phaseOneDone
    ensures Sound(SendAccepts(st).0)
  {
    var r := SendAccepts(st).0;
    SendAcceptsEffect(st);
    forall i: SlotID | InWindow(r, i)
      ensures Opened(r, i)
    {
      if i < st.nextSlot {
        assert ProposalAt(r, i) == ProposalAt(st, i) && InWindow(st, i) && Opened(st, i);
      } else {
        assert AcceptFor(st, r, i);
      }
    }
  }

  // ----- Restarting phase one

  /** One prepare of the next round, for a fresh count of promises; the window is to be sent anew. */
  ghost predicate Restarted(st: State, r: State, out: seq<Message>) {
    && r == st.(crnd := r.crnd, phaseOneDone := false, phaseOneCount := 0, phaseOnePromises := NoPromises(st.nrOfNodes),
                slots := r.slots, maxSeen := r.maxSeen, reqQueue := r.reqQueue)
    && r.crnd == Round(st.crnd.rnd + 1, st.crnd.id)
    && out == [PrepareMsg(Prepare(st.id, r.crnd, st.adu))]
    && (forall i: SlotID :: ProposalAt(r, i) == ProposalAt(st, i) && SlotAt(r.slots, i).id == SlotAt(st.slots, i).id)
    && forall i: SlotID :: InWindow(st, i) ==> SlotAt(r.slots, i).sentCount == 0
  }

  lemma RestartingLaw(st: State, clear: bool)
    ensures var (r, out) := StartPhaseOne(st, clear);
            Restarted(st, r, out) && r.reqQueue == if clear then [] else st.reqQueue
  {
  }

  lemma RestartedSound(st: State, r: State, out: seq<Message>)
    requires Sound(st) && Restarted(st, r, out)
    ensures Sound(r)
  {
    assert forall i: SlotID :: InWindow(r, i) ==> InWindow(st, i) && Opened(st, i);
  }

  // ----- Completing phase one

  /** Val is that of the highest round among the slot's own proposal and the votes reported for it, if there are any. */
  ghost predicate Highest(was: Option<Accept>, es: seq<AcceptorSlot>, i: SlotID, val: Value) {
    exists now :: Merged(was, now, es, i) && (now.Some? ==> val == now.value.val)
  }

  /** Every slot above adu is proposed again, each with the value of the highest round known. */
  ghost predicate Reproposes(slots: Slots, adu: SlotID, es: seq<AcceptorSlot>, out: seq<Message>) {
    forall k: nat :: k < |out| ==>
      out[k].AcceptMsg? && Highest(SlotAt(slots, adu + 1 + k).proposal, es, adu + 1 + k, out[k].accept.val)
  }

  /** Before anything is sent, each slot above adu holds what is known of it. */
  lemma CompletedState(st: State)
    requires Keyed(st)
    ensures var c, es := Completed(st), AllVotes(st.phaseOnePromises);
            && Sound(c) && c == st.(phaseOneDone := true, nextSlot := st.adu + 1, slots := c.slots, maxSeen := c.maxSeen)
            && forall j: SlotID :: j > st.adu ==>
                 && Merged(ProposalAt(st, j), ProposalAt(c, j), es, j)
                 && (ProposalAt(c, j).None? <==> ProposalAt(st, j).None? && !HasVote(es, j))
  {
    var es, c := AllVotes(st.phaseOnePromises), Completed(st);
    MergePromisesEffect(st, st.phaseOnePromises);
    forall j: SlotID | j > st.adu
      ensures Merged(ProposalAt(st, j), ProposalAt(c, j), es, j)
      ensures ProposalAt(c, j).None? <==> ProposalAt(st, j).None? && !HasVote(es, j)
    {
      MergedNew(ProposalAt(st, j), ProposalAt(c, j), es, j);
    }
  }

  lemma MergedNew(was: Option<Accept>, now: Option<Accept>, es: seq<AcceptorSlot>, i: SlotID)
    requires Merged(was, now, es, i)
    ensures now.None? <==> was.None? && !HasVote(es, i)
  {
  }

  lemma ReproposesHighest(st: State, c: State, r: State, es: seq<AcceptorSlot>, out: seq<Message>)
    requires SendEffect(c, r, out) && c.nextSlot == st.adu + 1
    requires forall j: SlotID :: j > st.adu ==> Merged(ProposalAt(st, j), ProposalAt(c, j), es, j)
    ensures Reproposes(st.slots, st.adu, es, out)
  {
    forall k: nat | k < |out|
      ensures out[k].AcceptMsg? && Highest(ProposalAt(st, st.adu + 1 + k), es, st.adu + 1 + k, out[k].accept.val)
    {
      var j := st.adu + 1 + k;
      assert IsProposal(r, c.nextSlot + k, out[k]) && AcceptFor(c, r, j);
      assert Merged(ProposalAt(st, j), ProposalAt(c, j), es, j);
    }
  }

  lemma CompletingFills(st: State)
    requires Keyed(st)
    ensures var (r, out) := CompletePhaseOne(st);
            && Sound(r) && r.phaseOneDone && (r.crnd, r.adu) == (st.crnd, st.adu)
            && Fills(st.id, st.crnd, r, st.adu + 1, out)
            && Reproposes(st.slots, st.adu, AllVotes(st.phaseOnePromises), out)
  {
    var c := Completed(st);
    var (r, out) := SendAccepts(c);
    CompletedState(st);
    SendingLaw(c);
    SendingSound(c);
    ReproposesHighest(st, c, r, AllVotes(st.phaseOnePromises), out);
    assert forall k: nat :: k < |out| ==> FilledWith(c.id, c.crnd, r, c.nextSlot + k, out[k]);
  }

  lemma CompletingTakes(st: State)
    requires Keyed(st)
    ensures var (r, out) := CompletePhaseOne(st);
            st.reqQueue == NewValues(st.slots, AllVotes(st.phaseOnePromises), out) + r.reqQueue
  {
    var c := Completed(st);
    CompletedState(st);
    SendingLaw(c);
    FreshIsNew(st, c, AllVotes(st.phaseOnePromises), c.nextSlot, SendAccepts(c).1);
  }

  // ----- Resending

  predicate TooOften(st: State, i: SlotID) {
    SlotAt(st.slots, i).sentCount >= RESENDS_BEFORE_RESTARTING_PHASE_ONE
  }

  /** Slot i is the first of the slots from lo on whose accept has been resent too often. */
  ghost predicate FirstTooOften(st: State, lo: SlotID, i: SlotID) {
    lo <= i < st.nextSlot && TooOften(st, i) && forall j: SlotID :: lo <= j < i ==> !TooOften(st, j)
  }

  /** The slots before i are repeated, phase one is restarted at i, and the slots behind it are repeated as well. */
  ghost predicate ResendsAround(st: State, r: State, lo: SlotID, i: SlotID, out: seq<Message>) {
    && r.crnd == NextRound(st.crnd) && !r.phaseOneDone
    && out == Kept(st, lo, i) + [PrepareMsg(Prepare(st.id, r.crnd, st.adu))] + Kept(st, i + 1, st.nextSlot)
    && forall j: SlotID :: InWindow(st, j) ==> SlotAt(r.slots, j).sentCount == if j <= i then 0 else 1
  }

  /** The proposals of the window are those of u, and so are the window and the prepare that would be sent. */
  ghost predicate SameWindow(st: State, u: State) {
    && (u.id, u.adu, u.nextSlot, u.crnd) == (st.id, st.adu, st.nextSlot, st.crnd)
    && forall j: SlotID :: ProposalAt(u, j) == ProposalAt(st, j)
  }

  lemma ResendTurn(st: State, i: SlotID)
    requires InWindow(st, i) && Opened(st, i) && !TooOften(st, i)
    ensures var (u, out) := ResendSlot(st, i);
            && SameWindow(st, u) && out == [AcceptMsg(ProposalAt(st, i).value)]
            && (u.phaseOneDone <==> st.phaseOneDone)
            && forall j: SlotID :: j != i ==> SlotAt(u.slots, j) == SlotAt(st.slots, j)
  {
  }

  lemma RestartTurn(st: State, i: SlotID)
    requires InWindow(st, i) && Opened(st, i) && TooOften(st, i)
    ensures var (u, out) := ResendSlot(st, i);
            && out == [PrepareMsg(Prepare(st.id, NextRound(st.crnd), st.adu))]
            && !u.phaseOneDone && SameWindow(st.(crnd := NextRound(st.crnd)), u)
            && forall j: SlotID :: InWindow(st, j) ==> SlotAt(u.slots, j).sentCount == 0
  {
  }

  lemma {:induction false} ResendKeepsRound(st: State, i: SlotID)
    requires Resendable(st, i)
    ensures ResendFrom(st, i).0 == st.(slots := ResendFrom(st, i).0.slots, maxSeen := ResendFrom(st, i).0.maxSeen)
    decreases st.nextSlot - i
  {
    if i < st.nextSlot {
      OneResent(st, i);
      ResendKeepsRound(ResendSlot(st, i).0, i + 1);
    }
  }

  ghost predicate AllOpened(st: State, lo: SlotID) {
    forall j: SlotID :: lo <= j < st.nextSlot ==> Opened(st, j)
  }

  /** A resent accept leaves the rest of the window as it is. */
  lemma LaterSlots(st: State, u: State, lo: SlotID, i: SlotID)
    requires SameWindow(st, u) && (u.phaseOneDone <==> st.phaseOneDone)
    requires forall j: SlotID :: j != lo ==> SlotAt(u.slots, j) == SlotAt(st.slots, j)
    requires AllOpened(st, lo) && FirstTooOften(st, lo, i) && lo < i
    ensures AllOpened(u, lo + 1) && FirstTooOften(u, lo + 1, i)
  {
    forall j: SlotID | lo + 1 <= j < u.nextSlot
      ensures Opened(u, j) && (j < i ==> !TooOften(u, j))
    {
      assert Opened(st, j) && ProposalAt(u, j) == ProposalAt(st, j);
      assert j < i ==> !TooOften(st, j);
    }
  }

  lemma AroundFirst(st: State, u: State, i: SlotID, r: State, rest: seq<Message>)
    requires InWindow(st, i) && SameWindow(st.(crnd := NextRound(st.crnd)), u)
    requires r == u.(slots := r.slots, maxSeen := r.maxSeen) && !u.phaseOneDone
    requires rest == Kept(u, i + 1, u.nextSlot)
    requires forall j: SlotID :: InWindow(st, j) ==> SlotAt(r.slots, j).sentCount == if j <= i then 0 else 1
    ensures ResendsAround(st, r, i, i, [PrepareMsg(Prepare(st.id, NextRound(st.crnd), st.adu))] + rest)
  {
    KeptSame(st, u, i + 1, st.nextSlot) by {
      assert forall j: SlotID :: ProposalAt(st, j) == ProposalAt(st.(crnd := NextRound(st.crnd)), j);
    }
    assert Kept(st, i, i) == [];
  }

  /** All slots behind a restart can be resent. */
  ghost predicate Anew(u: State, lo: SlotID) {
    forall j: SlotID :: lo <= j < u.nextSlot ==>
      ProposalAt(u, j).Some? && ProposalAt(u, j).value.slot == j && SlotAt(u.slots, j).sentCount == 0
  }

  lemma AnewRepeated(u: State, lo: SlotID)
    requires Anew(u, lo)
    ensures var (r, rest) := ResendFrom(u, lo);
            && rest == Kept(u, lo, u.nextSlot) && r == u.(slots := r.slots, maxSeen := r.maxSeen)
            && forall j: SlotID :: SlotAt(r.slots, j).sentCount ==
                                   if lo <= j < u.nextSlot then 1 else SlotAt(u.slots, j).sentCount
  {
    ResendsWholeWindow(u, lo);
    ResendKeepsRound(u, lo);
  }

  lemma RestartAnew(st: State, i: SlotID)
    requires InWindow(st, i) && AllOpened(st, i) && TooOften(st, i)
    ensures Anew(ResendSlot(st, i).0, i + 1)
  {
    var u := ResendSlot(st, i).0;
    assert Opened(st, i);
    RestartTurn(st, i);
    forall j: SlotID | i + 1 <= j < u.nextSlot
      ensures ProposalAt(u, j).Some? && ProposalAt(u, j).value.slot == j && SlotAt(u.slots, j).sentCount == 0
    {
      assert InWindow(st, j) && Opened(st, j);
      assert ProposalAt(u, j) == ProposalAt(st.(crnd := NextRound(st.crnd)), j);
    }
  }

  lemma RestartHere(st: State, i: SlotID)
    requires InWindow(st, i) && AllOpened(st, i) && TooOften(st, i)
    ensures ResendsAround(st, ResendFrom(st, i).0, i, i, ResendFrom(st, i).1)
  {
    var (u, out) := ResendSlot(st, i);
    RestartAnew(st, i);
    AnewRepeated(u, i + 1);
    RestartTurn(st, i) by { assert Opened(st, i); }
    AroundFirst(st, u, i, ResendFrom(u, i + 1).0, ResendFrom(u, i + 1).1);
    assert ResendFrom(st, i).1 == out + ResendFrom(u, i + 1).1;
  }

  lemma AroundLater(st: State, u: State, lo: SlotID, i: SlotID, r: State, rest: seq<Message>)
    requires InWindow(st, lo) && Opened(st, lo) && lo < i < st.nextSlot && SameWindow(st, u)
    requires ResendsAround(u, r, lo + 1, i, rest)
    ensures ResendsAround(st, r, lo, i, [AcceptMsg(ProposalAt(st, lo).value)] + rest)
  {
    KeptSame(st, u, lo + 1, i);
    KeptSame(st, u, i + 1, st.nextSlot);
    assert forall j: SlotID :: InWindow(u, j) == InWindow(st, j);
    assert Kept(st, lo, i) == [AcceptMsg(ProposalAt(st, lo).value)] + Kept(st, lo + 1, i);
  }

  /** A window with an accept that was sent too often is still sent as a whole, around the restart of phase one. */
  lemma {:induction false} RestartsAtFirst(st: State, lo: SlotID, i: SlotID)
    requires st.adu < lo && FirstTooOften(st, lo, i) && AllOpened(st, lo)
    ensures ResendsAround(st, ResendFrom(st, lo).0, lo, i, ResendFrom(st, lo).1)
    decreases i - lo
  {
    if lo < i {
      var (u, out) := ResendSlot(st, lo);
      assert Opened(st, lo) && !TooOften(st, lo);
      ResendTurn(st, lo);
      LaterSlots(st, u, lo, i);
      RestartsAtFirst(u, lo + 1, i);
      AroundLater(st, u, lo, i, ResendFrom(u, lo + 1).0, ResendFrom(u, lo + 1).1);
      assert ResendFrom(st, lo).1 == out + ResendFrom(u, lo + 1).1;
    } else {
      RestartHere(st, i);
    }
  }

  // ----- Counting

  ghost predicate SameCounts(st: State, r: State) {
    forall i: SlotID :: SlotAt(r.slots, i).sentCount == SlotAt(st.slots, i).sentCount
  }

  lemma SendOneCounts(st: State)
    ensures SameCounts(st, SendOne(st).0)
  {
  }

  lemma {:induction false} SendingCounts(st: State)
    ensures SameCounts(st, SendAccepts(st).0)
    decreases st.adu + st.alpha + 1 - st.nextSlot
  {
    SendOneCounts(st);
    if SendOne(st).1.Some? {
      SendingCounts(SendOne(st).0);
    }
  }

  lemma {:induction false} MergingCounts(st: State, es: seq<AcceptorSlot>)
    ensures SameCounts(st, MergeVotes(st, es))
  {
    if es != [] {
      MergingCounts(st, es[..|es| - 1]);
      assert SameCounts(MergeVotes(st, es[..|es| - 1]), MergeVotes(st, es));
    }
  }

  lemma CompletingCounts(st: State)
    ensures SameCounts(st, CompletePhaseOne(st).0)
  {
    MergePromisesFlat(st, st.phaseOnePromises);
    MergingCounts(st, AllVotes(st.phaseOnePromises));
    SendingCounts(Completed(st));
  }

  // ----- Each turn

  /** Nothing is sent and no proposal changes. */
  ghost predicate Unmoved(st: State, r: State, out: seq<Message>) {
    out == [] && r.nextSlot == st.nextSlot && forall i: SlotID :: ProposalAt(r, i) == ProposalAt(st, i)
  }

  /** The slots from lo on are all sent again, and phase one is restarted at the first accept that was sent too often. */
  ghost predicate ResendsWindow(st: State, lo: SlotID, r: State, out: seq<Message>) {
    if exists i: SlotID :: FirstTooOften(st, lo, i)
    then exists i: SlotID :: FirstTooOften(st, lo, i) && ResendsAround(st, r, lo, i, out)
    else
      && out == Kept(st, lo, st.nextSlot) && r.crnd == st.crnd && r.phaseOneDone
      && forall i: SlotID :: InWindow(st, i) ==> SlotAt(r.slots, i).sentCount == SlotAt(st.slots, i).sentCount + 1
  }

  ghost predicate Achieves(st: State, ev: Event, r: State, out: seq<Message>) {
    match ev
    case NewDecided | ClientValue(_) =>
      if Leads(st) then Fills(st.id, st.crnd, r, st.nextSlot, out) else Unmoved(st, r, out)
    case Trust(id) =>
      if Restarts(st, ev) then Restarted(st.(leader := id), r, out) else Unmoved(st, r, out)
    case PromiseReceived(_) =>
      if CompletesPhaseOne(st, ev)
      then
        && r.phaseOneDone && Fills(st.id, st.crnd, r, st.adu + 1, out)
        && Reproposes(st.slots, st.adu, Reported(st, ev), out)
      else Unmoved(st, r, out)
    case PhaseOneTimeout =>
      if Restarts(st, ev) then Restarted(st, r, out) else Unmoved(st, r, out)
    case PhaseTwoTimeout =>
      if Leads(st) then ResendsWindow(st, st.adu + 1, r, out) else Unmoved(st, r, out)
  }

  /** What no turn changes but the one that is for it. */
  ghost predicate Keeps(st: State, ev: Event, r: State) {
    && (r.id, r.alpha, r.nrOfNodes, r.quorum) == (st.id, st.alpha, st.nrOfNodes, st.quorum)
    && r.leader == (if ev.Trust? then ev.id else st.leader)
    && r.adu == st.adu + (if ev.NewDecided? then 1 else 0)
    && (!Restarts(st, ev) && !ev.PhaseTwoTimeout? ==> r.crnd == st.crnd && SameCounts(st, r))
    && (!Restarts(st, ev) && !ev.PhaseTwoTimeout? && !ev.PromiseReceived? ==> r.phaseOneDone == st.phaseOneDone)
  }

  /** The queue loses exactly the values sent in new proposals, in order, and gains what clients submit to the leader. */
  ghost predicate QueueLaw(st: State, ev: Event, r: State, out: seq<Message>) {
    if Restarts(st, ev) then r.reqQueue == []
    else st.reqQueue + Received(st, ev) == NewValues(st.slots, Reported(st, ev), out) + r.reqQueue
  }

  ghost predicate TurnOk(st: State, ev: Event, r: State, out: seq<Message>) {
    Sound(r) && Achieves(st, ev, r, out) && Keeps(st, ev, r) && QueueLaw(st, ev, r, out)
  }

  /** A turn that does nothing but send, from the state in which it has taken in its event. */
  lemma SendingTurn(st: State, ev: Event, t: State)
    requires ev.NewDecided? || ev.ClientValue?
    requires Sound(st) && Leads(st)
    requires t == st.(adu := st.adu + (if ev.NewDecided? then 1 else 0), reqQueue := st.reqQueue + Received(st, ev))
    ensures TurnOk(st, ev, SendAccepts(t).0, SendAccepts(t).1)
  {
    var (r, out) := SendAccepts(t);
    assert Sound(t) by {
      assert forall i: SlotID :: InWindow(t, i) ==> InWindow(st, i) && Opened(st, i);
    }
    SendingLaw(t);
    SendingSound(t);
    SendingCounts(t);
    FreshIsNew(st, t, [], st.nextSlot, out);
    assert forall k: nat :: k < |out| ==> FilledWith(t.id, t.crnd, r, st.nextSlot + k, out[k]);
  }

  lemma StoredPromise(st: State, ev: Event)
    requires CompletesPhaseOne(st, ev)
    ensures var t := HandleProm(st, ev.promise).value.0;
            && t == st.(phaseOnePromises := t.phaseOnePromises, phaseOneCount := t.phaseOneCount)
            && Reported(st, ev) == AllVotes(t.phaseOnePromises)
  {
  }

  lemma CompletingOk(st: State, ev: Event, r: State, out: seq<Message>)
    requires CompletesPhaseOne(st, ev) && Sound(r) && r.phaseOneDone && SameCounts(st, r)
    requires Fills(st.id, st.crnd, r, st.adu + 1, out) && Reproposes(st.slots, st.adu, Reported(st, ev), out)
    requires st.reqQueue == NewValues(st.slots, Reported(st, ev), out) + r.reqQueue
    requires (r.id, r.alpha, r.nrOfNodes, r.quorum, r.leader) == (st.id, st.alpha, st.nrOfNodes, st.quorum, st.leader)
    requires (r.crnd, r.adu) == (st.crnd, st.adu)
    ensures TurnOk(st, ev, r, out)
  {
    assert !Restarts(st, ev) && Received(st, ev) == [];
    assert Achieves(st, ev, r, out);
    assert Keeps(st, ev, r);
  }

  lemma CompletingTurn(st: State, ev: Event)
    requires Sound(st) && CompletesPhaseOne(st, ev)
    ensures var (r, out) := CompletePhaseOne(HandleProm(st, ev.promise).value.0);
            TurnOk(st, ev, r, out)
  {
    var t := HandleProm(st, ev.promise).value.0;
    StoredPromise(st, ev);
    CompletingFills(t);
    CompletingTakes(t);
    CompletingCounts(t);
    CompletingKeeps(t);
    assert SameCounts(st, CompletePhaseOne(t).0);
    CompletingOk(st, ev, CompletePhaseOne(t).0, CompletePhaseOne(t).1);
  }

  lemma CompletingKeeps(t: State)
    requires Keyed(t)
    ensures var r := CompletePhaseOne(t).0;
            (r.id, r.alpha, r.nrOfNodes, r.quorum, r.leader) == (t.id, t.alpha, t.nrOfNodes, t.quorum, t.leader)
  {
    CompletedState(t);
    SendAcceptsEffect(Completed(t));
  }

  /** A turn that sends nothing. */
  lemma SilentTurn(st: State, ev: Event, r: State)
    requires Sound(st) && !Restarts(st, ev) && !CompletesPhaseOne(st, ev)
    requires ev.NewDecided? || ev.ClientValue? || ev.PhaseTwoTimeout? ==> !Leads(st)
    requires Step(st, ev) == Ok((r, []))
    ensures TurnOk(st, ev, r, [])
  {
    assert forall i: SlotID :: InWindow(r, i) ==> InWindow(st, i) && Opened(st, i);
  }

  lemma RestartTurnOk(st: State, ev: Event)
    requires Sound(st) && Restarts(st, ev)
    ensures Step(st, ev).Ok? && TurnOk(st, ev, Step(st, ev).value.0, Step(st, ev).value.1)
  {
    var t := if ev.Trust? then st.(leader := ev.id) else st;
    assert Sound(t) by {
      assert forall i: SlotID :: InWindow(t, i) ==> InWindow(st, i) && Opened(st, i);
    }
    RestartingLaw(t, true);
    RestartedSound(t, StartPhaseOne(t, true).0, StartPhaseOne(t, true).1);
  }

  lemma {:induction false} FirstExists(st: State, lo: SlotID, j: SlotID)
    requires lo <= j < st.nextSlot && TooOften(st, j)
    ensures exists i: SlotID :: FirstTooOften(st, lo, i)
    decreases j
  {
    if k: SlotID :| lo <= k < j && TooOften(st, k) {
      FirstExists(st, lo, k);
    } else {
      assert FirstTooOften(st, lo, j);
    }
  }

  lemma ResendsTheWindow(st: State)
    requires Sound(st) && st.phaseOneDone
    ensures var (r, out) := ResendFrom(st, st.adu + 1);
            ResendsWindow(st, st.adu + 1, r, out)
  {
    var lo := st.adu + 1;
    assert forall j: SlotID :: lo <= j < st.nextSlot ==> InWindow(st, j);
    if i: SlotID :| FirstTooOften(st, lo, i) {
      RestartsAtFirst(st, lo, i);
    } else {
      forall j: SlotID | lo <= j < st.nextSlot
        ensures ProposalAt(st, j).Some? && ProposalAt(st, j).value.slot == j && !TooOften(st, j)
      {
        assert Opened(st, j);
        if TooOften(st, j) {
          FirstExists(st, lo, j);
        }
      }
      ResendsWholeWindow(st, lo);
      ResendKeepsRound(st, lo);
    }
  }

  lemma {:induction false} NothingNew(slots: Slots, out: seq<Message>)
    requires forall m :: m in out && m.AcceptMsg? ==> SlotAt(slots, m.accept.slot).proposal.Some?
    ensures NewValues(slots, [], out) == []
    decreases |out|
  {
    if out != [] {
      assert out[0] in out;
      assert forall m :: m in out[1..] ==> m in out;
      NothingNew(slots, out[1..]);
    }
  }

  lemma ResendingSound(st: State)
    requires Sound(st)
    ensures Sound(ResendFrom(st, st.adu + 1).0)
  {
    var r := ResendFrom(st, st.adu + 1).0;
    ResendFromEffect(st, st.adu + 1);
    forall i: SlotID | InWindow(r, i)
      ensures Opened(r, i)
    {
      assert InWindow(st, i) && Opened(st, i) && ProposalAt(r, i) == ProposalAt(st, i);
    }
  }

  lemma ResendingTakesNothing(st: State)
    requires Sound(st)
    ensures NewValues(st.slots, [], ResendFrom(st, st.adu + 1).1) == []
  {
    var (r, out) := ResendFrom(st, st.adu + 1);
    ResendFromEffect(st, st.adu + 1);
    forall m | m in out && m.AcceptMsg?
      ensures SlotAt(st.slots, m.accept.slot).proposal.Some?
    {
      assert ResendsOrPrepares(st, r, m);
      var i: SlotID :| st.adu < i < st.nextSlot && IsProposal(st, i, m);
      assert InWindow(st, i) && Opened(st, i);
    }
    NothingNew(st.slots, out);
  }

  lemma ResendingTurn(st: State)
    requires Sound(st) && Leads(st)
    ensures var (r, out) := ResendFrom(st, st.adu + 1);
            TurnOk(st, PhaseTwoTimeout, r, out)
  {
    var (r, out) := ResendFrom(st, st.adu + 1);
    ResendsTheWindow(st);
    ResendingSound(st);
    ResendingTakesNothing(st);
    assert ResendEffect(st, r) by { ResendFromEffect(st, st.adu + 1); }
    assert st.reqQueue + [] == [] + r.reqQueue;
  }

  /** What every turn of the event loop achieves and keeps. */
  lemma EachTurn(st: State, ev: Event)
    requires Sound(st) && Step(st, ev).Ok?
    ensures TurnOk(st, ev, Step(st, ev).value.0, Step(st, ev).value.1)
  {
    var r := Step(st, ev).value.0;
    if Restarts(st, ev) {
      RestartTurnOk(st, ev);
    } else if CompletesPhaseOne(st, ev) {
      CompletingTurn(st, ev);
    } else if Leads(st) && (ev.NewDecided? || ev.ClientValue?) {
      assert st.reqQueue + [] == st.reqQueue;
      var adu := st.adu + if ev.NewDecided? then 1 else 0;
      SendingTurn(st, ev, st.(adu := adu, reqQueue := st.reqQueue + Received(st, ev)));
    } else if Leads(st) && ev.PhaseTwoTimeout? {
      ResendingTurn(st);
    } else {
      SilentTurn(st, ev, r);
    }
  }

  /** In every run of a cluster each proposer is in a state that the laws speak of. */
  lemma {:induction false} RunsSound(c: M.Cluster, tr: seq<M.System>, k: nat, p: nat)
    requires M.Run(c, tr) && k < |tr| && p < c.Size()
    ensures |tr[k].props| == c.Size() && Sound(tr[k].props[p])
    decreases k
  {
    if k == 0 {
      assert tr[0].props[p] == M.InitProposer(c, c.ids[p], tr[0].props[p].leader);
    } else {
      RunsSound(c, tr, k - 1, p);
      assert M.Next(c, tr[k - 1], tr[k - 1 + 1]);
      var act :| M.Enabled(c, tr[k - 1], act) && tr[k] == M.Apply(tr[k - 1], act);
      if act.ProposerAct? && act.i == p && Step(tr[k - 1].props[p], act.pev).Ok? {
        EachTurn(tr[k - 1].props[p], act.pev);
      }
    }
  }

  // ----- Series of turns

  function Run(st: State, evs: seq<Event>): Outcome<State> {
    if evs == [] then Ok(st)
    else
      match Run(st, evs[..|evs| - 1])
      case Panic => Panic
      case Ok(t) => match Step(t, evs[|evs| - 1])
                    case Panic => Panic
                    case Ok((r, _)) => Ok(r)
  }

  /** Everything clients have submitted while the proposer was leader. */
  function AllReceived(st: State, evs: seq<Event>): seq<Value> {
    if evs == [] then []
    else
      match Run(st, evs[..|evs| - 1])
      case Panic => []
      case Ok(t) => AllReceived(st, evs[..|evs| - 1]) + Received(t, evs[|evs| - 1])
  }

  /** All values that were sent in accepts for slots with neither a proposal nor a reported vote. */
  function AllNew(st: State, evs: seq<Event>): seq<Value> {
    if evs == [] then []
    else
      var front, ev := evs[..|evs| - 1], evs[|evs| - 1];
      match Run(st, front)
      case Panic => []
      case Ok(t) =>
        AllNew(st, front)
        + match Step(t, ev)
          case Panic => []
          case Ok((_, out)) => NewValues(t.slots, Reported(t, ev), out)
  }

  ghost predicate NeverRestarts(st: State, evs: seq<Event>) {
    forall k: nat :: k < |evs| && Run(st, evs[..k]).Ok? ==> !Restarts(Run(st, evs[..k]).value, evs[k])
  }

  function DecidedCount(evs: seq<Event>): nat {
    if evs == [] then 0 else DecidedCount(evs[..|evs| - 1]) + if evs[|evs| - 1].NewDecided? then 1 else 0
  }

  lemma Conserved<T>(a: seq<T>, b: seq<T>, c: seq<T>, x: seq<T>, y: seq<T>, z: seq<T>, q: seq<T>)
    requires q + a == b + c && c + x == y + z
    ensures q + (a + x) == (b + y) + z
  {
    assert q + (a + x) == (q + a) + x == (b + c) + x == b + (c + x);
  }

  /**
   * Nothing that a client submits to the leader is lost, repeated or overtaken: over any series
   * of turns between two clearings of the queue, what was queued before and what was received are
   * the new proposals, in the order they were sent, and behind them what is still queued.
   */
  lemma {:induction false} QueueConserved(st: State, evs: seq<Event>)
    requires Sound(st) && Run(st, evs).Ok? && NeverRestarts(st, evs)
    ensures var r := Run(st, evs).value;
            && Sound(r)
            && st.reqQueue + AllReceived(st, evs) == AllNew(st, evs) + r.reqQueue
            && r.adu == st.adu + DecidedCount(evs)
  {
    if evs != [] {
      var front, ev := evs[..|evs| - 1], evs[|evs| - 1];
      forall k: nat | k < |front| && Run(st, front[..k]).Ok?
        ensures !Restarts(Run(st, front[..k]).value, front[k])
      {
        assert front[..k] == evs[..k] && front[k] == evs[k];
      }
      QueueConserved(st, front);
      var t := Run(st, front).value;
      assert !Restarts(t, ev) by { assert front == evs[..|front|]; }
      EachTurn(t, ev);
      var (r, out) := Step(t, ev).value;
      Conserved(AllReceived(st, front), AllNew(st, front), t.reqQueue, Received(t, ev),
                NewValues(t.slots, Reported(t, ev), out), r.reqQueue, st.reqQueue);
    }
  }
}
