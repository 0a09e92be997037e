/** Learners only learn chosen values, deliver them in slot order, and never panic. */
module LearnerSafety {
  import opened Wrappers
  import opened Group
  import opened Paxos
  import opened MultiPaxos
  import opened Invariants

  // ----- The invariant of a learner

  function Voters(learns: seq<Option<Learn>>): set<nat> {
    set k: nat | k < |learns| && learns[k].Some?
  }

  ghost predicate LearnInv(c: Cluster, m: Learn) {
    c.Member(m.id) && m.id.paxosID in c.acceptors && m.epochVector == [] && c.first <= m.slot && Less(ZERO_ROUND, m.rnd)
  }

  ghost predicate LearnStored(sent: set<Message>, i: SlotID, r: Round, learn: Option<Learn>, k: nat) {
    learn.Some? ==>
      var m := learn.value;
      LearnMsg(m) in sent && m.slot == i && m.rnd == r && m.id.paxosID == k
  }

  /** The votes counted for slot i at round r. */
  ghost predicate Counted(c: Cluster, sent: set<Message>, i: SlotID, r: Round, learns: seq<Option<Learn>>, votes: nat) {
    if r == ZERO_ROUND then learns == [] && votes == 0
    else
      && |learns| == c.Size()
      && votes == |Voters(learns)|
      && forall k: nat :: k < |learns| ==> LearnStored(sent, i, r, learns[k], k)
  }

  ghost predicate CountInv(c: Cluster, sent: set<Message>, slot: L.LearnerSlot) {
    Counted(c, sent, slot.id, slot.rnd, slot.learns, slot.votes)
  }

  /** Exactly the slots first..next-1 are decided; a learned value is chosen. */
  ghost predicate SlotOk(c: Cluster, sent: set<Message>, st: L.State, i: SlotID) {
    var slot := L.SlotAt(st.slots, i);
    && slot.id == i
    && CountInv(c, sent, slot)
    && (slot.learned ==> Chosen(c, sent, i, slot.learnedVal))
    && (slot.decided <==> c.first <= i < st.next)
    && (slot.decided ==> slot.learned)
  }

  /** The values sent on the decided channel are those learned in slots first, first+1, ... */
  ghost predicate StreamOk(c: Cluster, st: L.State) {
    && c.first <= st.next
    && |st.delivered| == st.next - c.first
    && forall k: nat :: k < |st.delivered| ==> st.delivered[k] == L.SlotAt(st.slots, c.first + k).learnedVal
  }

  ghost predicate LearnerCore(c: Cluster, sent: set<Message>, st: L.State) {
    && st.nrOfNodes == c.Size() && st.quorum == c.Quorum()
    && StreamOk(c, st)
    && forall i: SlotID :: SlotOk(c, sent, st, i)
  }

  /** The next slot to deliver has not been learned. */
  ghost predicate Settled(st: L.State) {
    !L.SlotAt(st.slots, st.next).learned
  }

  ghost predicate ResponseInv(c: Cluster, sent: set<Message>, vals: seq<ResponseTuple>) {
    forall t :: t in vals ==> Chosen(c, sent, t.slot, t.val)
  }

  // ----- More messages only choose more

  lemma ChosenStable(c: Cluster, sent: set<Message>, sent': set<Message>, i: SlotID, v: Value)
    requires sent <= sent' && Chosen(c, sent, i, v)
    ensures Chosen(c, sent', i, v)
  {
    var q, r :| ChosenBy(c, sent, q, i, r, v);
    assert ChosenBy(c, sent', q, i, r, v);
  }

  lemma LearnerCoreStable(c: Cluster, sent: set<Message>, sent': set<Message>, st: L.State)
    requires sent <= sent' && LearnerCore(c, sent, st)
    ensures LearnerCore(c, sent', st)
  {
    forall i: SlotID
      ensures SlotOk(c, sent', st, i)
    {
      assert SlotOk(c, sent, st, i);
      var slot := L.SlotAt(st.slots, i);
      if slot.learned {
        ChosenStable(c, sent, sent', i, slot.learnedVal);
      }
      forall k: nat | k < |slot.learns|
        ensures LearnStored(sent', i, slot.rnd, slot.learns[k], k)
      {
        assert slot.rnd != ZERO_ROUND ==> LearnStored(sent, i, slot.rnd, slot.learns[k], k);
      }
    }
  }

  // ----- Counting votes

  /** A slot may be replaced by one that is as good. */
  lemma PutCore(c: Cluster, sent: set<Message>, st: L.State, i: SlotID, slot: L.LearnerSlot)
    requires LearnerCore(c, sent, st)
    requires slot.id == i && CountInv(c, sent, slot)
    requires slot.decided == L.SlotAt(st.slots, i).decided
    requires L.SlotAt(st.slots, i).learned ==> slot.learned && slot.learnedVal == L.SlotAt(st.slots, i).learnedVal
    requires slot.learned ==> Chosen(c, sent, i, slot.learnedVal)
    ensures LearnerCore(c, sent, L.Put(st, i, slot))
  {
    var t := L.Put(st, i, slot);
    assert SlotOk(c, sent, st, i);
    forall j: SlotID
      ensures SlotOk(c, sent, t, j)
    {
      assert SlotOk(c, sent, st, j);
      assert j != i ==> L.SlotAt(t.slots, j) == L.SlotAt(st.slots, j);
    }
    forall k: nat | k < |t.delivered|
      ensures t.delivered[k] == L.SlotAt(t.slots, c.first + k).learnedVal
    {
      assert SlotOk(c, sent, st, c.first + k);
      assert c.first + k != i ==> L.SlotAt(t.slots, c.first + k) == L.SlotAt(st.slots, c.first + k);
    }
  }

  /** A quorum of learns of one round carries one value, which is chosen. */
  lemma QuorumChooses(c: Cluster, s: System, slot: L.LearnerSlot, m: Learn)
    requires VotingInv(c, s)
    requires forall n :: LearnMsg(n) in s.sent ==> LearnInv(c, n)
    requires slot.rnd != ZERO_ROUND && CountInv(c, s.sent, slot)
    requires slot.votes >= c.Quorum()
    requires LearnMsg(m) in s.sent && m.slot == slot.id && m.rnd == slot.rnd
    ensures Chosen(c, s.sent, slot.id, m.val)
  {
    var q := Voters(slot.learns);
    forall k | k in q
      ensures k in c.acceptors && Voted(c, s.sent, k, slot.id, slot.rnd, m.val)
    {
      assert LearnStored(s.sent, slot.id, slot.rnd, slot.learns[k], k);
      var n := slot.learns[k].value;
      assert LearnInv(c, n) && LearnInv(c, m);
      LearnIsVote(c, s, n);
      LearnIsVote(c, s, m);
    }
    assert ChosenBy(c, s.sent, q, slot.id, slot.rnd, m.val);
  }

  lemma LearnIsVote(c: Cluster, s: System, n: Learn)
    requires VotingInv(c, s) && LearnMsg(n) in s.sent && LearnInv(c, n)
    ensures Voted(c, s.sent, n.id.paxosID, n.slot, n.rnd, n.val)
    ensures Proposed(s.sent, n.rnd, n.slot, n.val)
  {
    var k: nat := n.id.paxosID;
    assert Voted(c, s.sent, k, n.slot, n.rnd, n.val);
    assert AcceptorInv(c, s.sent, k, s.accs[k]);
    assert VoteInv(s.accs[k], s.sent, c.first, n.slot, n.rnd, n.val);
  }

  /** The result of counting one learn. */
  ghost predicate LrnResult(c: Cluster, sent: set<Message>, st: L.State, m: Learn, t: L.State,
                            learned: Option<(Value, SlotID)>) {
    && LearnerCore(c, sent, t)
    && t == st.(slots := t.slots, maxSeen := t.maxSeen)
    && (forall i: SlotID :: L.SlotAt(t.slots, i).learned == L.SlotAt(st.slots, i).learned)
    && (learned.Some? ==>
          && learned.value.1 == m.slot
          && !L.SlotAt(t.slots, m.slot).learned
          && Chosen(c, sent, m.slot, learned.value.0))
  }

  /** Storing a slot that is not learned, with the votes of one round. */
  lemma PutCounted(c: Cluster, sent: set<Message>, st: L.State, m: Learn, slot: L.LearnerSlot,
                   learned: Option<(Value, SlotID)>)
    requires LearnerCore(c, sent, st)
    requires slot == L.SlotAt(st.slots, m.slot).(rnd := slot.rnd, learns := slot.learns, votes := slot.votes)
    requires CountInv(c, sent, slot)
    requires learned.Some? ==>
               learned.value.1 == m.slot && !slot.learned && Chosen(c, sent, m.slot, learned.value.0)
    ensures LrnResult(c, sent, st, m, L.Put(st, m.slot, slot), learned)
  {
    assert SlotOk(c, sent, st, m.slot);
    PutCore(c, sent, st, m.slot, slot);
  }

  lemma InRoundCounts(c: Cluster, sent: set<Message>, slot: L.LearnerSlot, r: Round)
    requires CountInv(c, sent, slot) && r != ZERO_ROUND
    ensures CountInv(c, sent, L.InRound(slot, r, c.Size()))
  {
    assert Voters(L.NoLearns(c.Size())) == {};
  }

  lemma CountOne(c: Cluster, sent: set<Message>, slot: L.LearnerSlot, m: Learn)
    requires slot.rnd != ZERO_ROUND && CountInv(c, sent, slot)
    requires LearnMsg(m) in sent && m.slot == slot.id && m.rnd == slot.rnd
    requires 0 <= m.id.paxosID < |slot.learns| && slot.learns[m.id.paxosID].None?
    ensures CountInv(c, sent, L.Count(slot, m))
  {
    var i: nat := m.id.paxosID;
    var counted := L.Count(slot, m);
    assert Voters(counted.learns) == Voters(slot.learns) + {i};
    forall k: nat | k < |counted.learns|
      ensures LearnStored(sent, slot.id, slot.rnd, counted.learns[k], k)
    {
      assert LearnStored(sent, slot.id, slot.rnd, slot.learns[k], k);
    }
  }

  lemma HandleLrnInv(c: Cluster, s: System, st: L.State, m: Learn)
    requires VotingInv(c, s)
    requires forall n :: LearnMsg(n) in s.sent ==> LearnInv(c, n)
    requires LearnerCore(c, s.sent, st) && LearnMsg(m) in s.sent
    ensures var r := L.HandleLrn(st, m);
            r.Ok? && LrnResult(c, s.sent, st, m, r.value.0, r.value.1)
  {
    var slot := L.SlotAt(st.slots, m.slot);
    assert SlotOk(c, s.sent, st, m.slot);
    assert LearnInv(c, m);
    if slot.learned || Less(m.rnd, slot.rnd) {
      PutCounted(c, s.sent, st, m, slot, None);
    } else {
      var current := L.InRound(slot, m.rnd, c.Size());
      InRoundCounts(c, s.sent, slot, m.rnd);
      if current.learns[m.id.paxosID].Some? {
        PutCounted(c, s.sent, st, m, current, None);
      } else {
        var counted := L.Count(current, m);
        CountOne(c, s.sent, current, m);
        if counted.votes >= c.Quorum() {
          QuorumChooses(c, s, counted, m);
        }
        PutCounted(c, s.sent, st, m, counted, L.HandleLrn(st, m).value.1);
      }
    }
  }

  /** The panic in learnValue is unreachable: a learn for a decided slot is never counted. */
  lemma LearnValInv(c: Cluster, sent: set<Message>, st: L.State, m: Learn, learned: Option<(Value, SlotID)>)
    requires LearnerCore(c, sent, st) && Settled(st)
    requires c.first <= m.slot
    requires learned.Some? ==>
               && learned.value.1 == m.slot
               && !L.SlotAt(st.slots, m.slot).learned
               && Chosen(c, sent, m.slot, learned.value.0)
    ensures var r := L.LearnVal(st, learned);
            && r.Ok?
            && LearnerCore(c, sent, r.value.0)
            && r.value.0.next == st.next
            && (r.value.1 != L.Advance ==> Settled(r.value.0))
  {
    assert SlotOk(c, sent, st, m.slot);
    if learned.Some? {
      PutCore(c, sent, st, m.slot,
              L.SlotAt(st.slots, m.slot).(learned := true, learnedVal := learned.value.0));
    }
  }

  // ----- Delivery

  /** The delivery loop keeps the stream in order and stops at an unlearned slot. */
  lemma {:induction false} AdvanceAllInv(c: Cluster, sent: set<Message>, st: L.State)
    requires LearnerCore(c, sent, st)
    ensures LearnerCore(c, sent, L.AdvanceAll(st)) && Settled(L.AdvanceAll(st))
    ensures st.delivered <= L.AdvanceAll(st).delivered
    ensures L.AdvanceAll(st).id == st.id
    decreases |L.Pending(st.slots)|
  {
    var (t, more) := L.DeliverOne(st);
    assert SlotOk(c, sent, st, st.next);
    if more {
      DeliverOneInv(c, sent, st);
      L.DeliveryShrinks(st);
      AdvanceAllInv(c, sent, t);
    } else {
      PutCore(c, sent, st, st.next, L.SlotAt(st.slots, st.next));
    }
  }

  lemma DeliverOneInv(c: Cluster, sent: set<Message>, st: L.State)
    requires LearnerCore(c, sent, st) && L.DeliverOne(st).1
    ensures LearnerCore(c, sent, L.DeliverOne(st).0)
  {
    var u := L.DeliverOne(st).0;
    forall i: SlotID
      ensures SlotOk(c, sent, u, i)
    {
      assert SlotOk(c, sent, st, i);
      assert i != st.next ==> L.SlotAt(u.slots, i) == L.SlotAt(st.slots, i);
    }
    forall k: nat | k < |u.delivered|
      ensures u.delivered[k] == L.SlotAt(u.slots, c.first + k).learnedVal
    {
      assert c.first + k != st.next ==> L.SlotAt(u.slots, c.first + k) == L.SlotAt(st.slots, c.first + k);
    }
  }

  // ----- Catch-up

  lemma TouchRangeCore(c: Cluster, sent: set<Message>, st: L.State, r: L.State)
    requires LearnerCore(c, sent, st) && L.SameSlots(st, r)
    ensures LearnerCore(c, sent, r) && (Settled(st) ==> Settled(r))
  {
    forall i: SlotID
      ensures SlotOk(c, sent, r, i)
    {
      assert SlotOk(c, sent, st, i) && L.SlotAt(r.slots, i) == L.SlotAt(st.slots, i);
    }
  }

  /** A response only holds slots the responder has decided, hence chosen values. */
  lemma {:induction false} HandleCUReqInv(c: Cluster, sent: set<Message>, st: L.State, ranges: seq<RangeTuple>)
    requires LearnerCore(c, sent, st)
    ensures var (t, vals) := L.HandleCUReq(st, ranges);
            L.SameSlots(st, t) && ResponseInv(c, sent, vals)
  {
    if ranges != [] {
      var front, rng := ranges[..|ranges| - 1], ranges[|ranges| - 1];
      HandleCUReqInv(c, sent, st, front);
      var t := L.HandleCUReq(st, front).0;
      TouchRangeCore(c, sent, st, t);
      DecidedInChosen(c, sent, t, rng.from, rng.to + 1);
      assert L.SameSlots(t, L.TouchRange(t, rng.from, rng.to + 1));
    }
  }

  lemma {:induction false} DecidedInChosen(c: Cluster, sent: set<Message>, st: L.State, lo: SlotID, hi: SlotID)
    requires LearnerCore(c, sent, st)
    ensures ResponseInv(c, sent, L.DecidedIn(st.slots, lo, hi))
  {
    if lo < hi {
      DecidedInChosen(c, sent, st, lo, hi - 1);
      assert SlotOk(c, sent, st, hi - 1);
    }
  }

  lemma {:induction false} HandleCURespInv(c: Cluster, sent: set<Message>, st: L.State, vals: seq<ResponseTuple>)
    requires LearnerCore(c, sent, st) && ResponseInv(c, sent, vals)
    ensures LearnerCore(c, sent, L.HandleCUResp(st, vals))
    ensures L.HandleCUResp(st, vals).id == st.id
  {
    if vals != [] {
      var front, dec := vals[..|vals| - 1], vals[|vals| - 1];
      HandleCURespInv(c, sent, st, front);
      var t := L.HandleCUResp(st, front);
      var slot := L.SlotAt(t.slots, dec.slot);
      assert SlotOk(c, sent, t, dec.slot);
      assert Chosen(c, sent, dec.slot, dec.val);
      PutCore(c, sent, t, dec.slot, if slot.learned then slot else slot.(learned := true, learnedVal := dec.val));
    }
  }
}
