/**
 * What each turn of the learner's event loop achieves, and how a gap in the
 * learned slots is closed by the messages of three turns.
 */
module CatchUpSteps {
  import opened Wrappers
  import opened Group
  import opened Paxos
  import opened Learners
  import opened CatchUp
  import M = MultiPaxos
  import S = Safety
  import LS = LearnerSafety

  /** Slots are stored under their own numbers, and none from next on is decided. */
  ghost predicate InStream(st: State) {
    forall i: SlotID :: SlotAt(st.slots, i).id == i && (SlotAt(st.slots, i).decided ==> i < st.next)
  }

  // ----- Delivery

  predicate Due(slot: LearnerSlot) {
    slot.learned && !slot.decided
  }

  /** The learned values of the slots lo..hi-1, in slot order. */
  function Values(slots: Slots, lo: SlotID, hi: SlotID): seq<Value>
    decreases hi - lo
  {
    if hi <= lo then [] else [SlotAt(slots, lo).learnedVal] + Values(slots, lo + 1, hi)
  }

  /** The slots st.next..r.next-1 were all due and are delivered, slot r.next is not due, and nothing else changes. */
  ghost predicate Delivers(st: State, r: State) {
    && r == st.(slots := r.slots, maxSeen := r.maxSeen, next := r.next, delivered := r.delivered)
    && st.next <= r.next
    && (forall i: SlotID :: st.next <= i < r.next ==> Due(SlotAt(st.slots, i)))
    && !Due(SlotAt(st.slots, r.next))
    && (forall i: SlotID ::
          SlotAt(r.slots, i) ==
            if st.next <= i < r.next then SlotAt(st.slots, i).(decided := true) else SlotAt(st.slots, i))
    && r.delivered == st.delivered + Values(st.slots, st.next, r.next)
  }

  lemma {:induction false} ValuesSame(a: Slots, b: Slots, lo: SlotID, hi: SlotID)
    requires forall i: SlotID :: lo <= i < hi ==> SlotAt(a, i) == SlotAt(b, i)
    ensures Values(a, lo, hi) == Values(b, lo, hi)
    decreases hi - lo
  {
    if lo < hi {
      ValuesSame(a, b, lo + 1, hi);
    }
  }

  lemma DeliversNext(st: State, t: State, r: State)
    requires Due(SlotAt(st.slots, st.next)) && Delivers(t, r)
    requires t == st.(slots := t.slots, maxSeen := t.maxSeen, next := st.next + 1,
                      delivered := st.delivered + [SlotAt(st.slots, st.next).learnedVal])
    requires forall i: SlotID :: SlotAt(t.slots, i) ==
                                 if i == st.next then SlotAt(st.slots, i).(decided := true) else SlotAt(st.slots, i)
    ensures Delivers(st, r)
  {
    ValuesSame(t.slots, st.slots, t.next, r.next);
    forall i: SlotID | st.next <= i < r.next
      ensures Due(SlotAt(st.slots, i))
    {
      assert i > st.next ==> Due(SlotAt(t.slots, i));
    }
  }

  lemma {:induction false} DeliversAll(st: State)
    ensures Delivers(st, AdvanceAll(st))
    decreases |Pending(st.slots)|
  {
    var (t, more) := DeliverOne(st);
    if more {
      DeliveryShrinks(st);
      DeliversAll(t);
      DeliversNext(st, t, AdvanceAll(t));
    }
  }

  // ----- Learns

  /** A slot without its count of learns. */
  function Bare(slot: LearnerSlot): LearnerSlot {
    slot.(rnd := ZERO_ROUND, learns := [], votes := 0)
  }

  /** Apart from counting, u differs from st exactly in that the slot of m has learned the value of m. */
  ghost predicate Learned(st: State, u: State, m: Learn) {
    && u == st.(slots := u.slots, maxSeen := u.maxSeen)
    && forall i: SlotID :: Bare(SlotAt(u.slots, i)) ==
                           if i == m.slot then Bare(SlotAt(st.slots, i)).(learned := true, learnedVal := m.val)
                           else Bare(SlotAt(st.slots, i))
  }

  ghost predicate OnlyCounted(st: State, u: State) {
    && u == st.(slots := u.slots, maxSeen := u.maxSeen)
    && forall i: SlotID :: Bare(SlotAt(u.slots, i)) == Bare(SlotAt(st.slots, i))
  }

  predicate HandsOut(st: State, m: Learn) {
    HandleLrn(st, m).Ok? && HandleLrn(st, m).value.1.Some?
  }

  predicate MayAsk(st: State) {
    !st.catchUpInProgress && st.id != st.leader
  }

  /** One request, from the replica itself, for exactly the undecided slots of lo..hi-1. */
  ghost predicate AsksFor(st: State, lo: SlotID, hi: SlotID, out: seq<Message>) {
    && |out| == 1 && out[0].CatchUpRequestMsg?
    && out[0].request.id == st.id && ExactRanges(st.slots, out[0].request.ranges, lo, hi)
  }

  /** What a learn achieves, given what counting it hands out. */
  ghost predicate LearnAchieves(st: State, m: Learn, r: State, out: seq<Message>) {
    if !HandsOut(st, m) then OnlyCounted(st, r) && out == []
    else if m.slot == st.next then out == [] && exists u :: Learned(st, u, m) && Delivers(u, r)
    else if !MayAsk(st) then Learned(st, r, m) && out == []
    else
      && Learned(st, r.(catchUpInProgress := false), m) && r.catchUpInProgress
      && AsksFor(st, st.next, m.slot, out)
  }

  lemma CountingIsBare(st: State, m: Learn)
    requires InStream(st) && HandleLrn(st, m).Ok?
    ensures var (t, learned) := HandleLrn(st, m).value;
            OnlyCounted(st, t) && InStream(t) && (learned.Some? ==> learned.value == (m.val, m.slot))
  {
    var t := HandleLrn(st, m).value.0;
    assert forall i: SlotID :: i != m.slot ==> SlotAt(t.slots, i) == SlotAt(st.slots, i);
  }

  lemma ExactSame(a: Slots, b: Slots, ts: seq<RangeTuple>, lo: SlotID, hi: SlotID)
    requires ExactRanges(a, ts, lo, hi)
    requires forall i: SlotID :: lo <= i < hi ==> SlotAt(a, i).decided == SlotAt(b, i).decided
    ensures ExactRanges(b, ts, lo, hi)
  {
  }

  lemma LearningIsBare(t: State, m: Learn)
    requires InStream(t) && t.next <= m.slot
    ensures var u := Put(t, m.slot, SlotAt(t.slots, m.slot).(learned := true, learnedVal := m.val));
            Learned(t, u, m) && InStream(u)
            && LearnVal(t, Some((m.val, m.slot))) == Ok((u, if m.slot == t.next then Advance else StartCatchUp(m.slot)))
  {
  }

  lemma LearnedAfterCounting(st: State, t: State, u: State, m: Learn)
    requires OnlyCounted(st, t) && Learned(t, u, m)
    ensures Learned(st, u, m)
  {
  }

  lemma AskingStep(st: State, u: State, m: Learn)
    requires st.next < m.slot && Learned(st, u, m)
    ensures var (r, out) := StartCatchUpStep(u, m.slot);
            if !MayAsk(st) then r == u && out == []
            else
              && Learned(st, r.(catchUpInProgress := false), m) && r.catchUpInProgress
              && AsksFor(st, st.next, m.slot, out)
  {
    RangesExact(u.slots, u.next, m.slot);
    forall i: SlotID | st.next <= i < m.slot
      ensures SlotAt(u.slots, i).decided == SlotAt(st.slots, i).decided
    {
      assert Bare(SlotAt(u.slots, i)) == Bare(SlotAt(st.slots, i));
    }
    ExactSame(u.slots, st.slots, UndecRanges(u.slots, u.next, m.slot), st.next, m.slot);
  }

  /** Each learn only counts, or delivers all that is due, or asks for the slots that are missing before its own. */
  lemma LearnTurn(st: State, m: Learn)
    requires InStream(st)
    ensures Step(st, LearnReceived(m)).Panic? <==> HandleLrn(st, m).Panic? || (HandsOut(st, m) && m.slot < st.next)
    ensures Step(st, LearnReceived(m)).Ok? ==>
              LearnAchieves(st, m, Step(st, LearnReceived(m)).value.0, Step(st, LearnReceived(m)).value.1)
  {
    if HandleLrn(st, m).Panic? {
      return;
    }
    var (t, learned) := HandleLrn(st, m).value;
    CountingIsBare(st, m);
    if learned.Some? && st.next <= m.slot {
      LearningIsBare(t, m);
      var u := LearnVal(t, learned).value.0;
      LearnedAfterCounting(st, t, u, m);
      if m.slot == st.next {
        DeliversAll(u);
      } else {
        AskingStep(st, u, m);
      }
    }
  }

  // ----- Requests and answers

  /** One answer, from the replica itself, with its values for exactly the requested slots that it has decided. */
  ghost predicate Answers(peer: State, request: CatchUpRequest, out: seq<Message>) {
    && |out| == 1 && out[0].CatchUpResponseMsg? && out[0].response.id == peer.id
    && forall t :: t in out[0].response.vals
         <==> Covered(t.slot, request.ranges) && SlotAt(peer.slots, t.slot).decided
              && t.val == SlotAt(peer.slots, t.slot).learnedVal
  }

  lemma RequestTurn(peer: State, request: CatchUpRequest)
    ensures Step(peer, CatchUpRequested(request)).Ok?
    ensures var (r, out) := Step(peer, CatchUpRequested(request)).value;
            SameSlots(peer, r) && Answers(peer, request, out)
  {
    var (r, vals) := HandleCUReq(peer, request.ranges);
    forall t
      ensures SameSlots(peer, r)
      ensures t in vals <==> Covered(t.slot, request.ranges) && SlotAt(peer.slots, t.slot).decided
                             && t.val == SlotAt(peer.slots, t.slot).learnedVal
    {
      AnswerExact(peer, request.ranges, t);
    }
    AnswerExact(peer, request.ranges, ResponseTuple(0, Noop));
  }

  /** The slots named in an answer are learned, those that were learned before with the value they had. */
  ghost predicate Adopted(st: State, u: State, vals: seq<ResponseTuple>) {
    && u == st.(slots := u.slots, maxSeen := u.maxSeen, catchUpInProgress := false)
    && (forall i: SlotID ::
          SlotAt(u.slots, i).decided == SlotAt(st.slots, i).decided && SlotAt(u.slots, i).id == SlotAt(st.slots, i).id)
    && (forall i: SlotID :: SlotAt(st.slots, i).learned ==> SlotAt(u.slots, i) == SlotAt(st.slots, i))
    && (forall t :: t in vals ==> SlotAt(u.slots, t.slot).learned)
    && forall i: SlotID :: SlotAt(u.slots, i).learned && !SlotAt(st.slots, i).learned ==>
         ResponseTuple(i, SlotAt(u.slots, i).learnedVal) in vals
  }

  lemma AdoptedMore(st: State, u: State, front: seq<ResponseTuple>, dec: ResponseTuple)
    requires Adopted(st, u.(catchUpInProgress := false), front)
    ensures Adopted(st, Adopt(u, dec).(catchUpInProgress := false), front + [dec])
  {
    var r := Adopt(u, dec);
    assert forall i: SlotID :: i != dec.slot ==> SlotAt(r.slots, i) == SlotAt(u.slots, i);
    assert forall t :: t in front + [dec] <==> t in front || t == dec;
    assert u.slots == u.(catchUpInProgress := false).slots;
  }

  lemma {:induction false} AdoptsAll(st: State, vals: seq<ResponseTuple>)
    ensures Adopted(st, HandleCUResp(st, vals).(catchUpInProgress := false), vals)
    ensures HandleCUResp(st, vals).catchUpInProgress == st.catchUpInProgress
  {
    if vals != [] {
      var front, dec := vals[..|vals| - 1], vals[|vals| - 1];
      AdoptsAll(st, front);
      AdoptedMore(st, HandleCUResp(st, front), front, dec);
      assert front + [dec] == vals;
    }
  }

  /** An answer is adopted, all that is then due is delivered, and the next gap may be asked for. */
  lemma AnswerTurn(st: State, response: CatchUpResponse)
    ensures Step(st, CatchUpAnswered(response)).Ok?
    ensures var (r, out) := Step(st, CatchUpAnswered(response)).value;
            out == [] && !r.catchUpInProgress && exists u :: Adopted(st, u, response.vals) && Delivers(u, r)
  {
    var u := HandleCUResp(st, response.vals).(catchUpInProgress := false);
    AdoptsAll(st, response.vals);
    DeliversAll(u);
  }

  /** A trust message only decides who may ask for missing slots. */
  lemma TrustTurn(st: State, id: ID)
    ensures Step(st, Event.Trust(id)).Ok?
    ensures var (r, out) := Step(st, Event.Trust(id)).value;
            && r == st.(leader := r.leader) && out == []
            && (MayAsk(r) <==> !st.catchUpInProgress && st.id != id)
  {
  }

  /** Whether the gap before slot k, first seen in state st, is closed in r. */
  ghost predicate Closed(st: State, peer: State, later: State, k: SlotID, r: State) {
    && (forall i: SlotID :: st.next <= i < k && SlotAt(peer.slots, i).decided ==>
          SlotAt(r.slots, i).learned
          && SlotAt(r.slots, i).learnedVal ==
               SlotAt(if SlotAt(later.slots, i).learned then later.slots else peer.slots, i).learnedVal)
    && ((forall i: SlotID :: st.next <= i < k ==> SlotAt(peer.slots, i).decided) ==> r.next > k)
  }

  /**
   * A gap is closed by three turns: a learn for a slot behind the gap makes the replica
   * send one request, which makes a peer send one answer; handling it, at any later
   * moment, leaves learned what the peer has decided of the gap, and if the peer has
   * decided all of it, everything up to the learn's own slot is delivered. Afterwards
   * the replica may ask again.
   */
  lemma GapIsClosed(st: State, m: Learn, peer: State, later: State)
    requires InStream(st) && HandsOut(st, m) && st.next < m.slot && MayAsk(st)
    requires InStream(later) && st.next <= later.next && SlotAt(later.slots, m.slot).learned
    ensures Step(st, LearnReceived(m)).Ok? && |Step(st, LearnReceived(m)).value.1| == 1
    ensures var request := Step(st, LearnReceived(m)).value.1[0];
            && request.CatchUpRequestMsg? && request.request.id == st.id
            && var answer := Step(peer, CatchUpRequested(request.request)).value.1;
            && |answer| == 1 && answer[0].CatchUpResponseMsg?
            && Step(later, CatchUpAnswered(answer[0].response)).Ok?
            && var r := Step(later, CatchUpAnswered(answer[0].response)).value.0;
            && Closed(st, peer, later, m.slot, r) && !r.catchUpInProgress
  {
    LearnTurn(st, m);
    var request := Step(st, LearnReceived(m)).value.1[0].request;
    RequestTurn(peer, request);
    var response := Step(peer, CatchUpRequested(request)).value.1[0].response;
    AnswerTurn(later, response);
    var r := Step(later, CatchUpAnswered(response)).value.0;
    var u :| Adopted(later, u, response.vals) && Delivers(u, r);
    GapAdopted(st, peer, later, m.slot, request, response, u);
    GapDelivered(st, peer, later, m.slot, u, r);
  }

  lemma GapAdopted(st: State, peer: State, later: State, k: SlotID,
                   request: CatchUpRequest, response: CatchUpResponse, u: State)
    requires InStream(st) && ExactRanges(st.slots, request.ranges, st.next, k)
    requires Answers(peer, request, [CatchUpResponseMsg(response)])
    requires Adopted(later, u, response.vals)
    ensures forall i: SlotID :: st.next <= i < k && SlotAt(peer.slots, i).decided ==> SlotAt(u.slots, i).learned
    ensures forall i: SlotID :: st.next <= i < k && SlotAt(peer.slots, i).decided && !SlotAt(later.slots, i).learned ==>
              SlotAt(u.slots, i).learnedVal == SlotAt(peer.slots, i).learnedVal
  {
    forall i: SlotID | st.next <= i < k && SlotAt(peer.slots, i).decided
      ensures SlotAt(u.slots, i).learned
      ensures !SlotAt(later.slots, i).learned ==> SlotAt(u.slots, i).learnedVal == SlotAt(peer.slots, i).learnedVal
    {
      assert !SlotAt(st.slots, i).decided;
      assert Covered(i, request.ranges);
      var t := ResponseTuple(i, SlotAt(peer.slots, i).learnedVal);
      assert t in response.vals;
      assert SlotAt(u.slots, t.slot).learned;
    }
  }

  lemma GapDelivered(st: State, peer: State, later: State, k: SlotID, u: State, r: State)
    requires InStream(later) && st.next <= later.next && SlotAt(later.slots, k).learned
    requires u.next == later.next && Delivers(u, r)
    requires forall i: SlotID :: SlotAt(u.slots, i).decided == SlotAt(later.slots, i).decided
    requires forall i: SlotID :: SlotAt(later.slots, i).learned ==> SlotAt(u.slots, i) == SlotAt(later.slots, i)
    requires forall i: SlotID :: st.next <= i < k && SlotAt(peer.slots, i).decided ==> SlotAt(u.slots, i).learned
    requires forall i: SlotID :: st.next <= i < k && SlotAt(peer.slots, i).decided && !SlotAt(later.slots, i).learned ==>
               SlotAt(u.slots, i).learnedVal == SlotAt(peer.slots, i).learnedVal
    ensures Closed(st, peer, later, k, r)
  {
    if forall i: SlotID :: st.next <= i < k ==> SlotAt(peer.slots, i).decided {
      assert r.next <= k ==> Due(SlotAt(u.slots, r.next)) by {
        assert !SlotAt(later.slots, r.next).decided;
      }
    }
  }

  // ----- Runs

  /** In every run of a cluster each learner is in a state that the turns above speak of. */
  lemma RunsInStream(c: M.Cluster, tr: seq<M.System>, k: nat, l: nat)
    requires M.Run(c, tr) && k < |tr| && l < c.Size()
    ensures |tr[k].lrns| == c.Size() && InStream(tr[k].lrns[l])
  {
    S.RunInv(c, tr, k);
    assert S.LearnerInv(c, tr[k].sent, tr[k].lrns[l]);
    forall i: SlotID
      ensures SlotAt(tr[k].lrns[l].slots, i).id == i
      ensures SlotAt(tr[k].lrns[l].slots, i).decided ==> i < tr[k].lrns[l].next
    {
      assert LS.SlotOk(c, tr[k].sent, tr[k].lrns[l], i);
    }
  }
}
