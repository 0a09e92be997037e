/** What the steps of the proposer do to its proposals and what they broadcast. */
module ProposerFacts {
  import opened Wrappers
  import opened Group
  import opened Paxos
  import opened Proposers

  /** Every slot is stored under its own number. */
  ghost predicate Keyed(st: State) {
    forall i: SlotID :: SlotAt(st.slots, i).id == i
  }

  // ----- Sending accepts

  /** Slot i now holds an accept of the current round that keeps the value it had, if any. */
  ghost predicate AcceptFor(st: State, r: State, i: SlotID) {
    && ProposalAt(r, i).Some?
    && ProposalAt(r, i).value.id == st.id
    && ProposalAt(r, i).value.slot == i
    && ProposalAt(r, i).value.rnd == st.crnd
    && if ProposalAt(st, i).Some? then ProposalAt(r, i).value.val == ProposalAt(st, i).value.val
       else ProposalAt(r, i).value.val in st.reqQueue
  }

  /** Accepts are broadcast for the slots st.nextSlot..r.nextSlot-1 and nothing else changes. */
  ghost predicate SendEffect(st: State, r: State, out: seq<Message>) {
    && r == st.(slots := r.slots, maxSeen := r.maxSeen, nextSlot := st.nextSlot + |out|, reqQueue := r.reqQueue)
    && Keyed(r)
    && (forall v :: v in r.reqQueue ==> v in st.reqQueue)
    && (forall i: SlotID :: st.nextSlot <= i < r.nextSlot ==> AcceptFor(st, r, i))
    && (forall i: SlotID :: !(st.nextSlot <= i < r.nextSlot) ==> ProposalAt(r, i) == ProposalAt(st, i))
    && (forall k: nat :: k < |out| ==> IsProposal(r, st.nextSlot + k, out[k]))
  }

  ghost predicate IsProposal(st: State, i: SlotID, m: Message) {
    m.AcceptMsg? && ProposalAt(st, i) == Some(m.accept)
  }

  /** Only the next slot's proposal changes, and only if an accept is sent. */
  lemma SendOneEffect(st: State)
    requires Keyed(st)
    ensures var (u, accept) := SendOne(st);
            && Keyed(u)
            && (forall v :: v in u.reqQueue ==> v in st.reqQueue)
            && (forall i: SlotID :: i != st.nextSlot ==> ProposalAt(u, i) == ProposalAt(st, i))
            && if accept.None? then
                 && u == st.(slots := u.slots, maxSeen := u.maxSeen)
                 && ProposalAt(u, st.nextSlot) == ProposalAt(st, st.nextSlot)
               else
                 && u == st.(slots := u.slots, maxSeen := u.maxSeen, nextSlot := st.nextSlot + 1, reqQueue := u.reqQueue)
                 && ProposalAt(u, st.nextSlot) == accept && AcceptFor(st, u, st.nextSlot)
  {
    var n := st.nextSlot;
    var touched := Touch(st, n);
    TouchKeeps(st, n);
    var u := SendOne(st).0;
    assert forall i: SlotID :: i != n ==> SlotAt(u.slots, i) == SlotAt(touched.slots, i);
  }

  lemma {:induction false} SendAcceptsEffect(st: State)
    requires Keyed(st)
    ensures SendEffect(st, SendAccepts(st).0, SendAccepts(st).1)
    decreases st.adu + st.alpha + 1 - st.nextSlot
  {
    var (u, accept) := SendOne(st);
    SendOneEffect(st);
    if accept.Some? {
      SendAcceptsEffect(u);
      SendEffectStep(st, u, accept.value, SendAccepts(u).0, SendAccepts(u).1);
    }
  }

  lemma TouchKeeps(st: State, i: SlotID)
    ensures SameButCounters(st, Touch(st, i))
  {
  }

  lemma SendEffectStep(st: State, u: State, a: Accept, r: State, rest: seq<Message>)
    requires u == st.(slots := u.slots, maxSeen := u.maxSeen, nextSlot := st.nextSlot + 1, reqQueue := u.reqQueue)
    requires Keyed(st) && Keyed(u)
    requires forall i: SlotID :: i != st.nextSlot ==> ProposalAt(u, i) == ProposalAt(st, i)
    requires forall v :: v in u.reqQueue ==> v in st.reqQueue
    requires ProposalAt(u, st.nextSlot) == Some(a) && AcceptFor(st, u, st.nextSlot)
    requires SendEffect(u, r, rest)
    ensures SendEffect(st, r, [AcceptMsg(a)] + rest)
  {
    var out := [AcceptMsg(a)] + rest;
    assert ProposalAt(r, st.nextSlot) == ProposalAt(u, st.nextSlot);
    forall i: SlotID | st.nextSlot <= i < r.nextSlot
      ensures AcceptFor(st, r, i)
    {
      assert i > st.nextSlot ==> AcceptFor(u, r, i);
    }
    forall i: SlotID | !(st.nextSlot <= i < r.nextSlot)
      ensures ProposalAt(r, i) == ProposalAt(st, i)
    {
      assert ProposalAt(u, i) == ProposalAt(st, i);
    }
    forall k: nat | k < |out|
      ensures IsProposal(r, st.nextSlot + k, out[k])
    {
      if k > 0 {
        assert IsProposal(r, u.nextSlot + (k - 1), rest[k - 1]);
        assert out[k] == rest[k - 1] && st.nextSlot + k == u.nextSlot + (k - 1);
      }
    }
  }

  // ----- Resending accepts

  ghost predicate ResendsOrPrepares(st: State, r: State, m: Message) {
    if m.PrepareMsg? then
      && m.prepare == Prepare(st.id, m.prepare.crnd, st.adu)
      && m.prepare.crnd.id == st.crnd.id
      && st.crnd.rnd < m.prepare.crnd.rnd <= r.crnd.rnd
    else
      exists i: SlotID :: st.adu < i < st.nextSlot && IsProposal(st, i, m)
  }

  /** Either the round is kept or phase one has been restarted. */
  ghost predicate ResendEffect(st: State, r: State) {
    && SameProposals(st, r)
    && r == st.(slots := r.slots, maxSeen := r.maxSeen, crnd := r.crnd, phaseOneDone := r.phaseOneDone,
                phaseOneCount := r.phaseOneCount, phaseOnePromises := r.phaseOnePromises)
    && r.crnd.id == st.crnd.id
    && (if r.crnd.rnd == st.crnd.rnd
        then (r.phaseOneDone, r.phaseOneCount, r.phaseOnePromises)
          == (st.phaseOneDone, st.phaseOneCount, st.phaseOnePromises)
        else
          && st.crnd.rnd < r.crnd.rnd
          && !r.phaseOneDone && r.phaseOneCount == 0 && r.phaseOnePromises == NoPromises(st.nrOfNodes))
  }

  ghost predicate SameProposals(st: State, r: State) {
    forall i: SlotID :: ProposalAt(r, i) == ProposalAt(st, i) && SlotAt(r.slots, i).id == SlotAt(st.slots, i).id
  }

  lemma ResendEffectTransitive(st: State, u: State, r: State)
    requires ResendEffect(st, u) && ResendEffect(u, r)
    ensures ResendEffect(st, r)
  {
    assert forall i: SlotID :: ProposalAt(r, i) == ProposalAt(u, i);
    assert forall i: SlotID :: SlotAt(r.slots, i).id == SlotAt(u.slots, i).id;
  }

  lemma ResendAcceptEffect(st: State, accept: Accept)
    ensures ResendEffect(st, ResendAccept(st, accept).0)
    ensures var (r, out) := ResendAccept(st, accept);
            out == [AcceptMsg(accept)]
            || (r.crnd.rnd == st.crnd.rnd + 1 && out == [PrepareMsg(Prepare(st.id, r.crnd, st.adu))])
  {
    TouchKeeps(st, accept.slot);
  }

  lemma ResendSlotEffect(st: State, i: SlotID)
    requires st.adu < i < st.nextSlot
    ensures var (u, out) := ResendSlot(st, i);
            ResendEffect(st, u) && forall m :: m in out ==> ResendsOrPrepares(st, u, m)
  {
    var t := Touch(st, i);
    TouchKeeps(st, i);
    assert ResendEffect(st, t);
    if ProposalAt(t, i).Some? {
      var accept := ProposalAt(t, i).value;
      ResendAcceptEffect(t, accept);
      ResendEffectTransitive(st, t, ResendAccept(t, accept).0);
      assert IsProposal(st, i, AcceptMsg(accept));
    }
  }

  /** A resend tick repeats accepts that are already proposals, or restarts phase one. */
  lemma {:induction false} ResendFromEffect(st: State, i: SlotID)
    requires st.adu < i
    ensures var (r, out) := ResendFrom(st, i);
            ResendEffect(st, r) && forall m :: m in out ==> ResendsOrPrepares(st, r, m)
    decreases st.nextSlot - i
  {
    if i < st.nextSlot {
      var (u, out) := ResendSlot(st, i);
      var (r, rest) := ResendFrom(u, i + 1);
      ResendSlotEffect(st, i);
      ResendFromEffect(u, i + 1);
      ResendEffectTransitive(st, u, r);
      forall m | m in out + rest
        ensures ResendsOrPrepares(st, r, m)
      {
        if m in out {
          assert ResendsOrPrepares(st, u, m);
        } else {
          assert ResendsOrPrepares(u, r, m);
          if !m.PrepareMsg? {
            var j: SlotID :| u.adu < j < u.nextSlot && IsProposal(u, j, m);
            assert IsProposal(st, j, m);
          }
        }
      }
    }
  }

  // ----- Merging the reported votes

  /** now is the proposal of highest round among was and the votes reported for slot i. */
  ghost predicate Merged(was: Option<Accept>, now: Option<Accept>, es: seq<AcceptorSlot>, i: SlotID) {
    match now
    case None => was.None? && forall e :: e in es ==> e.id != i
    case Some(p) =>
      && (now == was || exists e :: e in es && e.id == i && p == Accept(ZERO_ID, 0, e.vrnd, e.vval))
      && (was.Some? ==> AtMost(was.value.rnd, p.rnd))
      && (forall e :: e in es && e.id == i ==> AtMost(e.vrnd, p.rnd))
  }

  ghost predicate MergeEffect(st: State, r: State, es: seq<AcceptorSlot>) {
    && r == st.(slots := r.slots, maxSeen := r.maxSeen)
    && (forall i: SlotID :: SlotAt(r.slots, i).id == SlotAt(st.slots, i).id)
    && (forall i: SlotID :: i <= st.adu ==> ProposalAt(r, i) == ProposalAt(st, i))
    && (forall i: SlotID :: i > st.adu ==> Merged(ProposalAt(st, i), ProposalAt(r, i), es, i))
  }

  lemma {:induction false} MergeVotesEffect(st: State, es: seq<AcceptorSlot>)
    ensures MergeEffect(st, MergeVotes(st, es), es)
  {
    if es != [] {
      var rest, e := es[..|es| - 1], es[|es| - 1];
      var t, r := MergeVotes(st, rest), MergeVotes(st, es);
      MergeVotesEffect(st, rest);
      assert forall x :: x in es <==> x in rest || x == e;
      forall i: SlotID
        ensures SlotAt(r.slots, i).id == SlotAt(st.slots, i).id
        ensures i <= st.adu ==> ProposalAt(r, i) == ProposalAt(st, i)
        ensures i > st.adu ==> Merged(ProposalAt(st, i), ProposalAt(r, i), es, i)
      {
        assert SlotAt(t.slots, i).id == SlotAt(st.slots, i).id;
        assert i != e.id ==> SlotAt(r.slots, i) == SlotAt(t.slots, i);
        if i > st.adu {
          MergedNext(ProposalAt(st, i), ProposalAt(t, i), ProposalAt(r, i), rest, e, es, i);
        } else {
          assert ProposalAt(t, i) == ProposalAt(st, i);
        }
      }
    }
  }

  lemma MergedNext(was: Option<Accept>, mid: Option<Accept>, now: Option<Accept>,
                   rest: seq<AcceptorSlot>, e: AcceptorSlot, es: seq<AcceptorSlot>, i: SlotID)
    requires Merged(was, mid, rest, i)
    requires forall x :: x in es <==> x in rest || x == e
    requires if e.id != i || (mid.Some? && !Less(mid.value.rnd, e.vrnd)) then now == mid
             else now == Some(Accept(ZERO_ID, 0, e.vrnd, e.vval))
    ensures Merged(was, now, es, i)
  {
    if now.Some? && now != was && now == mid {
      var x :| x in rest && x.id == i && now.value == Accept(ZERO_ID, 0, x.vrnd, x.vval);
      assert x in es;
    } else if now.Some? && now != was {
      assert e in es;
    }
  }

  /** All votes reported by the promises, in the order they are merged. */
  function AllVotes(ps: Promises): (es: seq<AcceptorSlot>)
    ensures forall e :: e in es <==> exists k :: 0 <= k < |ps| && ps[k].Some? && e in ps[k].value.accSlots
  {
    if ps == [] then []
    else
      AllVotes(ps[..|ps| - 1])
      + match ps[|ps| - 1]
        case None => []
        case Some(p) => p.accSlots
  }

  lemma {:induction false} MergeVotesSplit(st: State, a: seq<AcceptorSlot>, b: seq<AcceptorSlot>)
    ensures MergeVotes(st, a + b) == MergeVotes(MergeVotes(st, a), b)
    decreases |b|
  {
    if b == [] {
      assert a + b == a;
    } else {
      assert (a + b)[..|a + b| - 1] == a + b[..|b| - 1];
      MergeVotesSplit(st, a, b[..|b| - 1]);
    }
  }

  lemma {:induction false} MergePromisesFlat(st: State, ps: Promises)
    ensures MergePromises(st, ps) == MergeVotes(st, AllVotes(ps))
  {
    if ps != [] {
      var front := ps[..|ps| - 1];
      MergePromisesFlat(st, front);
      match ps[|ps| - 1]
      case None => assert AllVotes(front) + [] == AllVotes(front);
      case Some(p) => MergeVotesSplit(st, AllVotes(front), p.accSlots);
    }
  }

  /** Completing phase one keeps, for every slot above adu, the proposal of the highest round. */
  lemma MergePromisesEffect(st: State, ps: Promises)
    ensures MergeEffect(st, MergePromises(st, ps), AllVotes(ps))
  {
    MergePromisesFlat(st, ps);
    MergeVotesEffect(st, AllVotes(ps));
  }
}
