/** The promises of MultiPaxos, for every run of a cluster. */
module Theorems {
  import opened Wrappers
  import opened Group
  import opened Paxos
  import opened MultiPaxos
  import opened Invariants
  import opened Stability
  import opened LearnerSafety
  import opened Safety
  import PS = ProposerSafety
  import G = Agreement

  // ----- Histories

  /** Nothing sent, submitted or delivered is forgotten, and acceptors' rounds never fall. */
  ghost predicate Later(c: Cluster, s: System, s': System) {
    && Shape(c, s) && Shape(c, s')
    && s.sent <= s'.sent
    && s.submitted <= s'.submitted
    && (forall a: nat :: a < c.Size() ==> AtMost(s.accs[a].rnd, s'.accs[a].rnd))
    && (forall l: nat :: l < c.Size() ==> s.lrns[l].delivered <= s'.lrns[l].delivered)
  }

  lemma StepLater(c: Cluster, s: System, s': System)
    requires Inv(c, s) && Next(c, s, s')
    ensures Later(c, s, s')
  {
    var act :| Enabled(c, s, act) && s' == Apply(s, act);
    if act.LearnerAct? {
      DeliveredGrows(c, s, act.i, act.lev);
    }
    RoundsRise(s, act);
  }

  lemma RoundsRise(s: System, act: Action)
    requires act.i < |s.props| && act.i < |s.accs| && act.i < |s.lrns|
    ensures |Apply(s, act).accs| == |s.accs|
    ensures forall a: nat :: a < |s.accs| ==> AtMost(s.accs[a].rnd, Apply(s, act).accs[a].rnd)
  {
  }

  lemma LaterTransitive(c: Cluster, s: System, t: System, u: System)
    requires Later(c, s, t) && Later(c, t, u)
    ensures Later(c, s, u)
  {
    forall l: nat | l < c.Size()
      ensures s.lrns[l].delivered <= u.lrns[l].delivered
    {
      assert s.lrns[l].delivered <= t.lrns[l].delivered <= u.lrns[l].delivered;
    }
    forall a: nat | a < c.Size()
      ensures AtMost(s.accs[a].rnd, u.accs[a].rnd)
    {
      assert AtMost(s.accs[a].rnd, t.accs[a].rnd) && AtMost(t.accs[a].rnd, u.accs[a].rnd);
    }
  }

  lemma DeliveredGrows(c: Cluster, s: System, l: nat, ev: L.Event)
    requires Inv(c, s) && Enabled(c, s, LearnerAct(l, ev))
    ensures var r := L.Step(s.lrns[l], ev);
            r.Ok? && s.lrns[l].delivered <= r.value.0.delivered
  {
    LearnerStepInv(c, s, l, ev);
    var st := s.lrns[l];
    assert LearnerInv(c, s.sent, st);
    match ev
    case LearnReceived(m) =>
      assert LearnInv(c, m);
      HandleLrnInv(c, s, st, m);
      var (t, learned) := L.HandleLrn(st, m).value;
      assert L.SlotAt(t.slots, t.next).learned == L.SlotAt(st.slots, t.next).learned;
      LearnValInv(c, s.sent, t, m, learned);
      var (u, verdict) := L.LearnVal(t, learned).value;
      if verdict == L.Advance {
        AdvanceAllInv(c, s.sent, u);
      }
    case CatchUpRequested(m) =>
      HandleCUReqInv(c, s.sent, st, m.ranges);
    case CatchUpAnswered(m) =>
      HandleCURespInv(c, s.sent, st, m.vals);
      var t := L.HandleCUResp(st, m.vals);
      CatchUpDelivers(st, m.vals);
      FlagsInv(c, s.sent, t, t.(catchUpInProgress := false));
      AdvanceAllInv(c, s.sent, t.(catchUpInProgress := false));
    case Trust(id) =>
  }

  lemma {:induction false} CatchUpDelivers(st: L.State, vals: seq<ResponseTuple>)
    ensures L.HandleCUResp(st, vals).delivered == st.delivered
  {
    if vals != [] {
      CatchUpDelivers(st, vals[..|vals| - 1]);
    }
  }

  lemma {:induction false} RunLater(c: Cluster, tr: seq<System>, i: nat, j: nat)
    requires Run(c, tr) && i <= j < |tr|
    ensures Later(c, tr[i], tr[j])
    decreases j - i
  {
    if i == j {
      RunInv(c, tr, i);
    } else {
      RunInv(c, tr, j - 1);
      assert Next(c, tr[j - 1], tr[j - 1 + 1]);
      StepLater(c, tr[j - 1], tr[j]);
      RunLater(c, tr, i, j - 1);
      LaterTransitive(c, tr[i], tr[j - 1], tr[j]);
    }
  }

  lemma RunGrows(c: Cluster, tr: seq<System>, i: nat, j: nat)
    requires Run(c, tr) && i <= j < |tr|
    ensures Inv(c, tr[i]) && Inv(c, tr[j]) && Later(c, tr[i], tr[j])
  {
    RunInv(c, tr, i);
    RunInv(c, tr, j);
    RunLater(c, tr, i, j);
  }

  // ----- Agreement

  /** Learner l has learned v in slot i. */
  ghost predicate HasLearned(c: Cluster, s: System, l: nat, i: SlotID, v: Value) {
    && l < |s.lrns|
    && L.SlotAt(s.lrns[l].slots, i).learned
    && L.SlotAt(s.lrns[l].slots, i).learnedVal == v
  }

  lemma LearnedIsChosen(c: Cluster, s: System, l: nat, i: SlotID, v: Value)
    requires Inv(c, s) && HasLearned(c, s, l, i, v)
    ensures Chosen(c, s.sent, i, v)
  {
    assert LearnerInv(c, s.sent, s.lrns[l]);
    assert SlotOk(c, s.sent, s.lrns[l], i);
  }

  /**
   * No two learners, at no two moments of a run, hold different values for a
   * slot, whether learned by votes or by catch-up.
   */
  lemma LearnersAgree(c: Cluster, tr: seq<System>, i: nat, j: nat, l: nat, k: nat, slot: SlotID, v: Value, w: Value)
    requires Run(c, tr) && i < |tr| && j < |tr|
    requires HasLearned(c, tr[i], l, slot, v) && HasLearned(c, tr[j], k, slot, w)
    ensures v == w
  {
    var n := |tr| - 1;
    RunGrows(c, tr, i, n);
    RunGrows(c, tr, j, n);
    LearnedIsChosen(c, tr[i], l, slot, v);
    LearnedIsChosen(c, tr[j], k, slot, w);
    ChosenStable(c, tr[i].sent, tr[n].sent, slot, v);
    ChosenStable(c, tr[j].sent, tr[n].sent, slot, w);
    G.ChosenUnique(c, tr[n], slot, v, w);
  }

  lemma DeliveredIsLearned(c: Cluster, s: System, l: nat, k: nat)
    requires Inv(c, s) && l < c.Size() && k < |s.lrns[l].delivered|
    ensures HasLearned(c, s, l, c.first + k, s.lrns[l].delivered[k])
  {
    assert LearnerInv(c, s.sent, s.lrns[l]);
    assert SlotOk(c, s.sent, s.lrns[l], c.first + k);
  }

  /** State-machine consistency: what two learners deliver, at any moments, is prefix-related. */
  lemma DeliveriesConsistent(c: Cluster, tr: seq<System>, i: nat, j: nat, l: nat, k: nat)
    requires Run(c, tr) && i < |tr| && j < |tr| && l < c.Size() && k < c.Size()
    ensures |tr[i].lrns| == |tr[j].lrns| == c.Size()
    ensures tr[i].lrns[l].delivered <= tr[j].lrns[k].delivered
            || tr[j].lrns[k].delivered <= tr[i].lrns[l].delivered
  {
    RunInv(c, tr, i);
    RunInv(c, tr, j);
    var a, b := tr[i].lrns[l].delivered, tr[j].lrns[k].delivered;
    forall n: nat | n < |a| && n < |b|
      ensures a[n] == b[n]
    {
      DeliveredIsLearned(c, tr[i], l, n);
      DeliveredIsLearned(c, tr[j], k, n);
      LearnersAgree(c, tr, i, j, l, k, c.first + n, a[n], b[n]);
    }
  }

  /** Only values that a client submitted before are ever delivered. */
  lemma DeliveredWasSubmitted(c: Cluster, tr: seq<System>, i: nat, l: nat, k: nat)
    requires Run(c, tr) && i < |tr| && l < c.Size()
    requires l < |tr[i].lrns| && k < |tr[i].lrns[l].delivered|
    ensures tr[i].lrns[l].delivered[k] in tr[i].submitted
  {
    var s := tr[i];
    RunInv(c, tr, i);
    var v := s.lrns[l].delivered[k];
    DeliveredIsLearned(c, s, l, k);
    LearnedIsChosen(c, s, l, c.first + k, v);
    var q, r :| ChosenBy(c, s.sent, q, c.first + k, r, v);
    G.ChosenIsProposed(c, s, q, c.first + k, r, v);
    assert AcceptInv(c, s.accs, s.sent, s.submitted, Accept(r.id, c.first + k, r, v));
  }

  // ----- Learner stream

  /** In every reachable state exactly the slots first..next-1 are decided and the next one is not even learned. */
  lemma LearnerStream(c: Cluster, tr: seq<System>, i: nat, l: nat, slot: SlotID)
    requires Run(c, tr) && i < |tr| && l < c.Size()
    ensures l < |tr[i].lrns|
    ensures var st := tr[i].lrns[l];
            && (L.SlotAt(st.slots, slot).decided <==> c.first <= slot < st.next)
            && !L.SlotAt(st.slots, st.next).learned
            && |st.delivered| == st.next - c.first
  {
    RunInv(c, tr, i);
    assert LearnerInv(c, tr[i].sent, tr[i].lrns[l]);
    assert SlotOk(c, tr[i].sent, tr[i].lrns[l], slot);
  }

  /** No handler ever panics. */
  lemma NeverPanics(c: Cluster, tr: seq<System>, i: nat)
    requires Run(c, tr) && i < |tr|
    ensures !tr[i].panicked
  {
    RunInv(c, tr, i);
  }

  // ----- Proposers and acceptors

  /** All accepts ever broadcast for a round and slot carry the same value. */
  lemma OneValuePerRoundAndSlot(c: Cluster, tr: seq<System>, i: nat, j: nat, m: Accept, n: Accept)
    requires Run(c, tr) && i < |tr| && j < |tr|
    requires AcceptMsg(m) in tr[i].sent && AcceptMsg(n) in tr[j].sent
    requires m.rnd == n.rnd && m.slot == n.slot
    ensures m == n
  {
    var k := |tr| - 1;
    RunGrows(c, tr, i, k);
    RunGrows(c, tr, j, k);
    var s := tr[k];
    assert AcceptInv(c, s.accs, s.sent, s.submitted, m) && AcceptInv(c, s.accs, s.sent, s.submitted, n);
    assert OneValuePerRound(s.sent);
  }

  /** An accept agrees with everything chosen in its slot at a lower round, before or after it was sent. */
  lemma AcceptsAgreeWithChosen(c: Cluster, tr: seq<System>, i: nat, j: nat, m: Accept, q: set<nat>, r: Round, v: Value)
    requires Run(c, tr) && i < |tr| && j < |tr|
    requires AcceptMsg(m) in tr[i].sent
    requires ChosenBy(c, tr[j].sent, q, m.slot, r, v) && Less(r, m.rnd)
    ensures m.val == v
  {
    var n := |tr| - 1;
    RunGrows(c, tr, i, n);
    RunGrows(c, tr, j, n);
    assert ChosenBy(c, tr[n].sent, q, m.slot, r, v);
    G.ProposalsSafe(c, tr[n], m, q, r, v);
  }

  /** A resend tick broadcasts no accept that was not broadcast before, even across a restart of phase one. */
  lemma ResendsRepeat(c: Cluster, tr: seq<System>, i: nat, p: nat, m: Accept)
    requires Run(c, tr) && i < |tr| && p < c.Size() && p < |tr[i].props|
    requires P.Step(tr[i].props[p], P.PhaseTwoTimeout).Ok?
    requires AcceptMsg(m) in P.Step(tr[i].props[p], P.PhaseTwoTimeout).value.1
    ensures AcceptMsg(m) in tr[i].sent
  {
    RunInv(c, tr, i);
    PS.ResendsAreOld(c, tr[i], p, m);
  }

  /** An acceptor's round never falls, and its votes are at most its round and lie at or below MaxSeen. */
  lemma AcceptorRounds(c: Cluster, tr: seq<System>, i: nat, j: nat, a: nat, slot: SlotID)
    requires Run(c, tr) && i <= j < |tr| && a < c.Size()
    ensures a < |tr[i].accs| && a < |tr[j].accs|
    ensures AtMost(tr[i].accs[a].rnd, tr[j].accs[a].rnd)
    ensures var st := tr[j].accs[a];
            && AtMost(A.SlotAt(st.slots, slot).vrnd, st.rnd)
            && (A.Voted(st.slots, slot) ==> slot <= st.maxSeen)
  {
    RunGrows(c, tr, i, j);
    assert AcceptorInv(c, tr[j].sent, a, tr[j].accs[a]);
    assert SlotInv(c, tr[j].sent, a, tr[j].accs[a], slot);
  }

  /** The replica has cast this vote, for an accept that was broadcast, below the round. */
  ghost predicate VoteOf(c: Cluster, sent: set<Message>, id: ID, below: Round, e: AcceptorSlot) {
    && id.paxosID >= 0 && Voted(c, sent, id.paxosID, e.id, e.vrnd, e.vval)
    && Proposed(sent, e.vrnd, e.id, e.vval) && Less(e.vrnd, below)
  }

  /**
   * A promise reports, for every slot from the prepared one on, a vote at least
   * as high as any its sender ever casts there below the promised round; and each
   * of its entries is a vote that its sender has cast, or padding with slot number 0.
   */
  lemma PromisesReport(c: Cluster, tr: seq<System>, i: nat, m: Promise)
    requires Run(c, tr) && i < |tr| && PromiseMsg(m) in tr[i].sent
    ensures forall e :: e in m.accSlots ==> e.id == 0 || VoteOf(c, tr[i].sent, m.id, m.rnd, e)
    ensures exists p: Prepare :: PrepareMsg(p) in tr[i].sent && p.crnd == m.rnd && Covers(c, tr[i].sent, m, p.slot)
  {
    RunInv(c, tr, i);
    assert PromiseInv(c, tr[i].accs, tr[i].sent, m);
    forall e | e in m.accSlots
      ensures e.id == 0 || VoteOf(c, tr[i].sent, m.id, m.rnd, e)
    {
      assert EntryOk(c, tr[i].sent, m, e);
    }
  }

  /** Every learn repeats the round, slot and value of a broadcast accept. */
  lemma LearnsRepeatAccepts(c: Cluster, tr: seq<System>, i: nat, n: Learn)
    requires Run(c, tr) && i < |tr| && LearnMsg(n) in tr[i].sent
    ensures AcceptMsg(Accept(n.rnd.id, n.slot, n.rnd, n.val)) in tr[i].sent
  {
    RunInv(c, tr, i);
    assert LearnInv(c, n);
    LearnIsVote(c, tr[i], n);
  }

  /** Everything delivered stays delivered: later deliveries only extend the sequence. */
  lemma DeliveriesOnlyExtend(c: Cluster, tr: seq<System>, i: nat, j: nat, l: nat)
    requires Run(c, tr) && i <= j < |tr| && l < c.Size()
    ensures l < |tr[i].lrns| && l < |tr[j].lrns|
    ensures tr[i].lrns[l].delivered <= tr[j].lrns[l].delivered
  {
    RunGrows(c, tr, i, j);
  }
}
