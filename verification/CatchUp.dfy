/** Catch-up between learners: the requested ranges and what a full answer achieves. */
module CatchUp {
  import opened Wrappers
  import opened Group
  import opened Paxos
  import opened Learners

  predicate InRange(i: SlotID, t: RangeTuple) {
    t.from <= i <= t.to
  }

  predicate Covered(i: SlotID, ts: seq<RangeTuple>) {
    exists t :: t in ts && InRange(i, t)
  }

  /** Ordered and disjoint ranges within lo..hi-1, with a gap between neighbours. */
  ghost predicate Separated(ts: seq<RangeTuple>, lo: SlotID, hi: SlotID) {
    && (forall k: nat :: k < |ts| ==> lo <= ts[k].from <= ts[k].to < hi)
    && forall j: nat, k: nat :: j < k < |ts| ==> ts[j].to + 1 < ts[k].from
  }

  /** The ranges are exactly the undecided slots of lo..hi-1. */
  ghost predicate ExactRanges(slots: Slots, ts: seq<RangeTuple>, lo: SlotID, hi: SlotID) {
    && Separated(ts, lo, hi)
    && forall i: SlotID :: lo <= i < hi ==> (Covered(i, ts) <==> !SlotAt(slots, i).decided)
  }

  /** The scan's closed ranges stop before the open one, which reaches up to hi. */
  ghost predicate ScanOk(slots: Slots, lo: SlotID, hi: SlotID, ts: seq<RangeTuple>, start: Option<SlotID>) {
    match start
    case None =>
      && ExactRanges(slots, ts, lo, hi)
      && (forall k: nat :: k < |ts| ==> ts[k].to + 1 < hi)
    case Some(from) =>
      && lo <= from < hi
      && ExactRanges(slots, ts, lo, from)
      && (forall k: nat :: k < |ts| ==> ts[k].to + 1 < from)
      && (forall i: SlotID :: from <= i < hi ==> !SlotAt(slots, i).decided)
  }

  lemma ExtendRanges(slots: Slots, ts: seq<RangeTuple>, lo: SlotID, from: SlotID, hi: SlotID)
    requires lo <= from < hi
    requires ScanOk(slots, lo, hi, ts, Some(from))
    ensures ExactRanges(slots, ts + [RangeTuple(from, hi - 1)], lo, hi)
  {
    var all := ts + [RangeTuple(from, hi - 1)];
    forall i: SlotID | lo <= i < hi
      ensures Covered(i, all) <==> !SlotAt(slots, i).decided
    {
      if i < from {
        assert Covered(i, ts) ==> Covered(i, all);
        if Covered(i, all) {
          var t :| t in all && InRange(i, t);
          assert t in ts;
        }
      } else {
        assert all[|ts|] in all && InRange(i, all[|ts|]);
      }
    }
  }

  lemma DecidedNext(slots: Slots, ts: seq<RangeTuple>, lo: SlotID, hi: SlotID)
    requires lo < hi && ExactRanges(slots, ts, lo, hi - 1) && SlotAt(slots, hi - 1).decided
    ensures ExactRanges(slots, ts, lo, hi)
    ensures forall k: nat :: k < |ts| ==> ts[k].to + 1 < hi
  {
    assert !Covered(hi - 1, ts);
  }

  lemma UndecidedNext(slots: Slots, ts: seq<RangeTuple>, lo: SlotID, hi: SlotID, start: Option<SlotID>)
    requires lo < hi && ScanOk(slots, lo, hi - 1, ts, start) && !SlotAt(slots, hi - 1).decided
    ensures ScanOk(slots, lo, hi, ts, if start.None? then Some(hi - 1) else start)
  {
  }

  lemma {:induction false} ScanIsOk(slots: Slots, lo: SlotID, hi: SlotID)
    requires lo <= hi
    ensures ScanOk(slots, lo, hi, UndecScan(slots, lo, hi).0, UndecScan(slots, lo, hi).1)
  {
    if lo < hi {
      ScanIsOk(slots, lo, hi - 1);
      var (ts, start) := UndecScan(slots, lo, hi - 1);
      if SlotAt(slots, hi - 1).decided {
        var closed := if start.Some? then ts + [RangeTuple(start.value, hi - 2)] else ts;
        if start.Some? {
          ExtendRanges(slots, ts, lo, start.value, hi - 1);
        }
        DecidedNext(slots, closed, lo, hi);
      } else {
        UndecidedNext(slots, ts, lo, hi, start);
      }
    }
  }

  /** A catch-up request asks for exactly the undecided slots, in maximal ranges. */
  lemma RangesExact(slots: Slots, lo: SlotID, hi: SlotID)
    requires lo <= hi
    ensures ExactRanges(slots, UndecRanges(slots, lo, hi), lo, hi)
  {
    ScanIsOk(slots, lo, hi);
    var (ts, start) := UndecScan(slots, lo, hi);
    if start.Some? {
      ExtendRanges(slots, ts, lo, start.value, hi);
    }
  }

  // ----- Answers

  lemma {:induction false} DecidedInMember(slots: Slots, lo: SlotID, hi: SlotID, t: ResponseTuple)
    ensures t in DecidedIn(slots, lo, hi)
       <==> lo <= t.slot < hi && SlotAt(slots, t.slot).decided && t.val == SlotAt(slots, t.slot).learnedVal
  {
    if lo < hi {
      DecidedInMember(slots, lo, hi - 1, t);
    }
  }

  /** An answer holds the responder's values for exactly the requested slots it has decided. */
  lemma {:induction false} AnswerExact(peer: State, ranges: seq<RangeTuple>, t: ResponseTuple)
    ensures SameSlots(peer, HandleCUReq(peer, ranges).0)
    ensures t in HandleCUReq(peer, ranges).1
       <==> Covered(t.slot, ranges) && SlotAt(peer.slots, t.slot).decided
            && t.val == SlotAt(peer.slots, t.slot).learnedVal
  {
    if ranges != [] {
      var front, rng := ranges[..|ranges| - 1], ranges[|ranges| - 1];
      AnswerExact(peer, front, t);
      var mid := HandleCUReq(peer, front).0;
      DecidedInMember(mid.slots, rng.from, rng.to + 1, t);
      assert SlotAt(mid.slots, t.slot) == SlotAt(peer.slots, t.slot);
      assert SameSlots(mid, TouchRange(mid, rng.from, rng.to + 1));
      assert Covered(t.slot, ranges) <==> Covered(t.slot, front) || InRange(t.slot, rng) by {
        assert forall x :: x in ranges <==> x in front || x == rng;
      }
    }
  }

  /** Adopting values keeps what was learned and learns exactly what the answer adds. */
  lemma {:induction false} AdoptedSlot(st: State, vals: seq<ResponseTuple>, i: SlotID, v: Value)
    requires forall t :: t in vals && t.slot == i ==> t.val == v
    ensures var was, now := SlotAt(st.slots, i), SlotAt(HandleCUResp(st, vals).slots, i);
            if was.learned || forall t :: t in vals ==> t.slot != i then now == was
            else now == was.(learned := true, learnedVal := v)
  {
    if vals != [] {
      var front, dec := vals[..|vals| - 1], vals[|vals| - 1];
      AdoptedSlot(st, front, i, v);
      var t := HandleCUResp(st, front);
      assert i != dec.slot ==> SlotAt(Adopt(t, dec).slots, i) == SlotAt(t.slots, i);
      assert forall x :: x in vals <==> x in front || x == dec;
    }
  }

  lemma RequestedExactly(slots: Slots, lo: SlotID, hi: SlotID, i: SlotID)
    requires lo <= hi
    ensures Covered(i, UndecRanges(slots, lo, hi)) <==> lo <= i < hi && !SlotAt(slots, i).decided
  {
    var ranges := UndecRanges(slots, lo, hi);
    RangesExact(slots, lo, hi);
    if t :| t in ranges && InRange(i, t) {
      var k: nat :| k < |ranges| && ranges[k] == t;
      assert lo <= ranges[k].from <= ranges[k].to < hi;
    }
  }

  /**
   * Asking a peer that has decided all undecided slots below `slot` leaves all of
   * them learned: with the peer's value where the requester had none, and with
   * its own value otherwise. No other slot changes.
   */
  lemma CatchUpCompletes(st: State, peer: State, slot: SlotID, i: SlotID)
    requires st.next <= slot
    requires forall j: SlotID :: st.next <= j < slot && !SlotAt(st.slots, j).decided ==> SlotAt(peer.slots, j).decided
    ensures var ranges := UndecRanges(st.slots, st.next, slot);
            var after := HandleCUResp(st, HandleCUReq(peer, ranges).1);
            var was, now := SlotAt(st.slots, i), SlotAt(after.slots, i);
            if st.next <= i < slot && !was.decided && !was.learned
            then now == was.(learned := true, learnedVal := SlotAt(peer.slots, i).learnedVal)
            else now == was
  {
    var ranges := UndecRanges(st.slots, st.next, slot);
    var vals := HandleCUReq(peer, ranges).1;
    var v := SlotAt(peer.slots, i).learnedVal;
    RequestedExactly(st.slots, st.next, slot, i);
    forall t | t in vals && t.slot == i
      ensures t.val == v && Covered(i, ranges)
    {
      AnswerExact(peer, ranges, t);
    }
    AnswerExact(peer, ranges, ResponseTuple(i, v));
    AdoptedSlot(st, vals, i, v);
    assert Covered(i, ranges) ==> ResponseTuple(i, v) in vals;
  }
}
