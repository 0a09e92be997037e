/** Safety of MultiPaxos over whole runs. */
module Safety {
  import opened Wrappers
  import opened Group
  import opened Paxos
  import opened MultiPaxos
  import opened Invariants
  import opened Stability
  import opened LearnerSafety
  import opened AcceptorSafety
  import PS = ProposerSafety
  import G = Agreement

  ghost predicate LearnerInv(c: Cluster, sent: set<Message>, st: L.State) {
    LearnerCore(c, sent, st) && Settled(st)
  }

  ghost predicate LearnsInv(c: Cluster, sent: set<Message>) {
    forall m :: LearnMsg(m) in sent ==> LearnInv(c, m)
  }

  ghost predicate ResponsesInv(c: Cluster, sent: set<Message>) {
    forall m :: CatchUpResponseMsg(m) in sent ==> ResponseInv(c, sent, m.vals)
  }

  /** The invariant of every reachable state. */
  ghost predicate Inv(c: Cluster, s: System) {
    && VotingInv(c, s)
    && LearnsInv(c, s.sent)
    && ResponsesInv(c, s.sent)
    && (forall l: nat :: l < c.Size() ==> LearnerInv(c, s.sent, s.lrns[l]))
    && !s.panicked
  }

  lemma InitInv(c: Cluster, s: System)
    requires Init(c, s)
    ensures Inv(c, s)
  {
    forall p: nat | p < c.Size()
      ensures ProposerInv(c, s.sent, s.submitted, p, s.props[p])
    {
      assert s.props[p] == InitProposer(c, c.ids[p], s.props[p].leader);
    }
    forall a: nat | a < c.Size()
      ensures AcceptorInv(c, s.sent, a, s.accs[a])
    {
      assert s.accs[a] == InitAcceptor(c, c.ids[a]);
    }
    forall l: nat | l < c.Size()
      ensures LearnerInv(c, s.sent, s.lrns[l])
    {
      assert s.lrns[l] == InitLearner(c, c.ids[l], s.lrns[l].leader);
    }
  }

  // ----- Steps

  /** What the learners know survives when only messages are added. */
  lemma LearnersStable(c: Cluster, s: System, s': System)
    requires Inv(c, s) && VotingInv(c, s') && s'.lrns == s.lrns && s.sent <= s'.sent && !s'.panicked
    requires forall m :: m in s'.sent && m !in s.sent ==> !m.CatchUpResponseMsg? && (m.LearnMsg? ==> LearnInv(c, m.learn))
    ensures Inv(c, s')
  {
    forall l: nat | l < c.Size()
      ensures LearnerInv(c, s'.sent, s'.lrns[l])
    {
      LearnerCoreStable(c, s.sent, s'.sent, s.lrns[l]);
    }
    forall m | CatchUpResponseMsg(m) in s'.sent
      ensures ResponseInv(c, s'.sent, m.vals)
    {
      forall t | t in m.vals
        ensures Chosen(c, s'.sent, t.slot, t.val)
      {
        ChosenStable(c, s.sent, s'.sent, t.slot, t.val);
      }
    }
  }

  lemma PhaseOneAfter(c: Cluster, s: System, p: nat, t: P.State)
    requires Shape(c, s) && p < c.Size()
    requires VotingInv(c, s.(props := s.props[p := t]))
    ensures var (r, out) := P.StartPhaseOne(t, true);
            VotingInv(c, s.(props := s.props[p := r], sent := s.sent + Items(out)))
  {
    var s1 := s.(props := s.props[p := t]);
    PS.StartPhaseOneInv(c, s1, p, true);
    var r := P.StartPhaseOne(t, true).0;
    assert s1.props[p := r] == s.props[p := r];
  }

  lemma CompleteAfter(c: Cluster, s: System, p: nat, m: Promise)
    requires VotingInv(c, s) && p < c.Size()
    requires P.HandleProm(s.props[p], m).Ok?
    requires VotingInv(c, s.(props := s.props[p := P.HandleProm(s.props[p], m).value.0]))
    ensures var (t, quorum) := P.HandleProm(s.props[p], m).value;
            quorum ==>
              var (r, out) := P.CompletePhaseOne(t);
              VotingInv(c, s.(props := s.props[p := r], sent := s.sent + Items(out)))
  {
    var (t, quorum) := P.HandleProm(s.props[p], m).value;
    if quorum {
      var s1 := s.(props := s.props[p := t]);
      assert ProposerInv(c, s.sent, s.submitted, p, s.props[p]);
      PS.CompletePhaseOneInv(c, s1, p);
      var r := P.CompletePhaseOne(t).0;
      assert s1.props[p := r] == s.props[p := r];
    }
  }

  lemma NewDecidedInv(c: Cluster, s: System, p: nat)
    requires VotingInv(c, s) && Enabled(c, s, ProposerAct(p, P.NewDecided))
    ensures VotingInv(c, Apply(s, ProposerAct(p, P.NewDecided)))
  {
    var t := s.props[p].(adu := s.props[p].adu + 1);
    assert ProposerInv(c, s.sent, s.submitted, p, s.props[p]);
    assert s.sent + Items([]) == s.sent;
    PS.SimpleChange(c, s, p, t, s.submitted);
    PS.SendAfter(c, s, p, t, s.submitted);
  }

  lemma ClientValueInv(c: Cluster, s: System, p: nat, val: Value)
    requires VotingInv(c, s) && Enabled(c, s, ProposerAct(p, P.ClientValue(val)))
    ensures VotingInv(c, Apply(s, ProposerAct(p, P.ClientValue(val))))
  {
    var st := s.props[p];
    assert ProposerInv(c, s.sent, s.submitted, p, st);
    assert s.sent + Items([]) == s.sent;
    var t := if st.leader == st.id then st.(reqQueue := st.reqQueue + [val]) else st;
    PS.SimpleChange(c, s, p, t, s.submitted + {val});
    PS.SendAfter(c, s, p, t, s.submitted + {val});
  }

  lemma TrustInv(c: Cluster, s: System, p: nat, id: ID)
    requires VotingInv(c, s) && Enabled(c, s, ProposerAct(p, P.Trust(id)))
    ensures VotingInv(c, Apply(s, ProposerAct(p, P.Trust(id))))
  {
    var st := s.props[p];
    var t := st.(leader := id);
    assert ProposerInv(c, s.sent, s.submitted, p, st);
    assert s.sent + Items([]) == s.sent && s.props[p := st] == s.props;
    PS.SimpleChange(c, s, p, t, s.submitted);
    PhaseOneAfter(c, s, p, t);
  }

  lemma PromiseReceivedInv(c: Cluster, s: System, p: nat, m: Promise)
    requires VotingInv(c, s) && Enabled(c, s, ProposerAct(p, P.PromiseReceived(m)))
    ensures VotingInv(c, Apply(s, ProposerAct(p, P.PromiseReceived(m))))
    ensures P.HandleProm(s.props[p], m).Ok?
  {
    assert s.sent + Items([]) == s.sent;
    PS.PromiseStoredInv(c, s, p, m);
    CompleteAfter(c, s, p, m);
  }

  lemma TimeoutInv(c: Cluster, s: System, p: nat, ev: P.Event)
    requires ev == P.PhaseOneTimeout || ev == P.PhaseTwoTimeout
    requires VotingInv(c, s) && Enabled(c, s, ProposerAct(p, ev))
    ensures VotingInv(c, Apply(s, ProposerAct(p, ev)))
  {
    var st := s.props[p];
    assert s.sent + Items([]) == s.sent && s.props[p := st] == s.props;
    if ev == P.PhaseOneTimeout {
      PS.StartPhaseOneInv(c, s, p, true);
    } else if P.LeaderAndPhaseOneComplete(st) {
      PS.ResendInv(c, s, p);
    }
  }

  lemma ProposerStepInv(c: Cluster, s: System, p: nat, ev: P.Event)
    requires VotingInv(c, s) && Enabled(c, s, ProposerAct(p, ev))
    ensures VotingInv(c, Apply(s, ProposerAct(p, ev)))
    ensures P.Step(s.props[p], ev).Ok?
  {
    match ev
    case NewDecided => NewDecidedInv(c, s, p);
    case ClientValue(val) => ClientValueInv(c, s, p, val);
    case Trust(id) => TrustInv(c, s, p, id);
    case PromiseReceived(m) => PromiseReceivedInv(c, s, p, m);
    case PhaseOneTimeout => TimeoutInv(c, s, p, ev);
    case PhaseTwoTimeout => TimeoutInv(c, s, p, ev);
  }

  /** The messages of a proposer are prepares and accepts. */
  lemma {:induction false} ProposerMessages(st: P.State, ev: P.Event, m: Message)
    requires P.Step(st, ev).Ok? && m in P.Step(st, ev).value.1
    ensures m.PrepareMsg? || m.AcceptMsg?
  {
    match ev
    case NewDecided => SendMessages(st.(adu := st.adu + 1), m);
    case ClientValue(val) => SendMessages(st.(reqQueue := st.reqQueue + [val]), m);
    case Trust(_) =>
    case PromiseReceived(p) =>
      var t := P.HandleProm(st, p).value.0;
      SendMessages(P.Completed(t), m);
    case PhaseOneTimeout =>
    case PhaseTwoTimeout => ResendMessages(st, st.adu + 1, m);
  }

  lemma {:induction false} SendMessages(st: P.State, m: Message)
    ensures m in P.SendAccepts(st).1 ==> m.AcceptMsg?
    decreases st.adu + st.alpha + 1 - st.nextSlot
  {
    if P.InAlphaRange(st.nextSlot, st.adu, st.alpha) {
      var (t, accept) := P.GenAccept(P.Touch(st, st.nextSlot), st.nextSlot);
      if accept.Some? {
        SendMessages(t.(nextSlot := st.nextSlot + 1), m);
      }
    }
  }

  lemma {:induction false} ResendMessages(st: P.State, i: SlotID, m: Message)
    ensures m in P.ResendFrom(st, i).1 ==> m.PrepareMsg? || m.AcceptMsg?
    decreases st.nextSlot - i
  {
    if i < st.nextSlot {
      ResendMessages(P.ResendSlot(st, i).0, i + 1, m);
    }
  }

  lemma ProposerActInv(c: Cluster, s: System, p: nat, ev: P.Event)
    requires Inv(c, s) && Enabled(c, s, ProposerAct(p, ev))
    ensures Inv(c, Apply(s, ProposerAct(p, ev)))
  {
    ProposerStepInv(c, s, p, ev);
    var out := P.Step(s.props[p], ev).value.1;
    forall m | m in out
      ensures m.PrepareMsg? || m.AcceptMsg?
    {
      ProposerMessages(s.props[p], ev, m);
    }
    LearnersStable(c, s, Apply(s, ProposerAct(p, ev)));
  }

  lemma AcceptorActInv(c: Cluster, s: System, act: Action)
    requires Inv(c, s) && Enabled(c, s, act) && (act.PrepareAct? || act.AcceptAct?)
    ensures Inv(c, Apply(s, act))
  {
    if act.PrepareAct? {
      PrepareActInv(c, s, act.i, act.prepare);
    } else {
      AcceptActInv(c, s, act.i, act.accept);
      assert AcceptInv(c, s.accs, s.sent, s.submitted, act.accept);
      if A.AcceptStep(s.accs[act.i], act.accept).1.Some? {
        VoteCast(c, s, act.i, act.accept);
      }
    }
    LearnersStable(c, s, Apply(s, act));
  }

  // ----- Learners' steps

  ghost predicate CatchUpMessage(m: Message) {
    m.CatchUpRequestMsg? || m.CatchUpResponseMsg?
  }

  /** Catch-up messages play no part in voting. */
  /** Adding catch-up messages changes neither votes nor accepts nor prepares. */
  lemma CatchUpKeepsActors(c: Cluster, s: System, s': System, p: nat)
    requires VotingInv(c, s) && p < c.Size()
    requires s' == s.(lrns := s'.lrns, sent := s'.sent) && s.sent <= s'.sent
    requires forall m :: m in s'.sent && m !in s.sent ==> CatchUpMessage(m)
    ensures ProposerInv(c, s'.sent, s'.submitted, p, s'.props[p])
    ensures AcceptorInv(c, s'.sent, p, s'.accs[p])
  {
    ProposerInvStable(c, s, s.accs, s'.sent, s.submitted, p);
    AcceptorInvStable(c, s.sent, s'.sent, p, s.accs[p]);
  }

  lemma CatchUpKeepsVoting(c: Cluster, s: System, l: nat, st: L.State, out: seq<Message>)
    requires VotingInv(c, s) && l < c.Size()
    requires forall m :: m in out ==> CatchUpMessage(m)
    ensures VotingInv(c, s.(lrns := s.lrns[l := st], sent := s.sent + Items(out)))
  {
    var s' := s.(lrns := s.lrns[l := st], sent := s.sent + Items(out));
    assert SameVotes(c, s.sent, s'.sent);
    forall p: nat | p < c.Size()
      ensures ProposerInv(c, s'.sent, s'.submitted, p, s'.props[p])
      ensures AcceptorInv(c, s'.sent, p, s'.accs[p])
    {
      CatchUpKeepsActors(c, s, s', p);
    }
    MessagesStable(c, s, s');
  }

  lemma StartCatchUpInv(c: Cluster, sent: set<Message>, st: L.State, slot: SlotID)
    requires LearnerInv(c, sent, st)
    ensures LearnerInv(c, sent, L.StartCatchUpStep(st, slot).0)
  {
    if !st.catchUpInProgress && st.id != st.leader {
      var t := st.(catchUpInProgress := true);
      FlagsInv(c, sent, st, t);
      TouchRangeCore(c, sent, t, L.TouchRange(t, st.next, slot));
    }
  }

  lemma FlagsInv(c: Cluster, sent: set<Message>, st: L.State, t: L.State)
    requires LearnerCore(c, sent, st)
    requires t == st.(leader := t.leader, catchUpInProgress := t.catchUpInProgress)
    ensures LearnerCore(c, sent, t) && (Settled(st) ==> Settled(t))
  {
    forall i: SlotID
      ensures SlotOk(c, sent, t, i)
    {
      assert SlotOk(c, sent, st, i);
    }
  }

  lemma OnLearnInv(c: Cluster, s: System, l: nat, m: Learn)
    requires Inv(c, s) && l < c.Size() && LearnMsg(m) in s.sent
    ensures var r := L.OnLearn(s.lrns[l], m);
            && r.Ok?
            && LearnerInv(c, s.sent, r.value.0)
            && forall x :: x in r.value.1 ==> x.CatchUpRequestMsg?
  {
    var st := s.lrns[l];
    assert LearnerInv(c, s.sent, st) && LearnInv(c, m);
    HandleLrnInv(c, s, st, m);
    var (t, learned) := L.HandleLrn(st, m).value;
    assert L.SlotAt(t.slots, t.next).learned == L.SlotAt(st.slots, t.next).learned;
    LearnValInv(c, s.sent, t, m, learned);
    var (u, verdict) := L.LearnVal(t, learned).value;
    match verdict
    case Nothing =>
    case Advance => AdvanceAllInv(c, s.sent, u);
    case StartCatchUp(slot) => StartCatchUpInv(c, s.sent, u, slot);
  }

  lemma LearnerStepInv(c: Cluster, s: System, l: nat, ev: L.Event)
    requires Inv(c, s) && Enabled(c, s, LearnerAct(l, ev))
    ensures var r := L.Step(s.lrns[l], ev);
            && r.Ok?
            && LearnerInv(c, s.sent, r.value.0)
            && forall m :: m in r.value.1 ==>
                 CatchUpMessage(m) && (m.CatchUpResponseMsg? ==> ResponseInv(c, s.sent, m.response.vals))
  {
    var st := s.lrns[l];
    assert LearnerInv(c, s.sent, st);
    match ev
    case LearnReceived(m) => OnLearnInv(c, s, l, m);
    case CatchUpRequested(m) =>
      HandleCUReqInv(c, s.sent, st, m.ranges);
      TouchRangeCore(c, s.sent, st, L.HandleCUReq(st, m.ranges).0);
    case CatchUpAnswered(m) =>
      HandleCURespInv(c, s.sent, st, m.vals);
      var t := L.HandleCUResp(st, m.vals);
      FlagsInv(c, s.sent, t, t.(catchUpInProgress := false));
      AdvanceAllInv(c, s.sent, t.(catchUpInProgress := false));
    case Trust(id) => FlagsInv(c, s.sent, st, st.(leader := id));
  }

  lemma LearnerActInv(c: Cluster, s: System, l: nat, ev: L.Event)
    requires Inv(c, s) && Enabled(c, s, LearnerAct(l, ev))
    ensures Inv(c, Apply(s, LearnerAct(l, ev)))
  {
    LearnerStepInv(c, s, l, ev);
    var (st, out) := L.Step(s.lrns[l], ev).value;
    var s' := Apply(s, LearnerAct(l, ev));
    CatchUpKeepsVoting(c, s, l, st, out);
    forall k: nat | k < c.Size()
      ensures LearnerInv(c, s'.sent, s'.lrns[k])
    {
      LearnerCoreStable(c, s.sent, s'.sent, s'.lrns[k]);
    }
    forall m, t | CatchUpResponseMsg(m) in s'.sent && t in m.vals
      ensures Chosen(c, s'.sent, t.slot, t.val)
    {
      assert ResponseInv(c, s.sent, m.vals);
      ChosenStable(c, s.sent, s'.sent, t.slot, t.val);
    }
  }

  // ----- Runs

  lemma NextInv(c: Cluster, s: System, s': System)
    requires Inv(c, s) && Next(c, s, s')
    ensures Inv(c, s')
  {
    var act :| Enabled(c, s, act) && s' == Apply(s, act);
    match act
    case ProposerAct(p, ev) => ProposerActInv(c, s, p, ev);
    case PrepareAct(_, _) => AcceptorActInv(c, s, act);
    case AcceptAct(_, _) => AcceptorActInv(c, s, act);
    case LearnerAct(l, ev) => LearnerActInv(c, s, l, ev);
  }

  lemma {:induction false} RunInv(c: Cluster, tr: seq<System>, k: nat)
    requires Run(c, tr) && k < |tr|
    ensures Inv(c, tr[k])
  {
    if k == 0 {
      InitInv(c, tr[0]);
    } else {
      RunInv(c, tr, k - 1);
      assert Next(c, tr[k - 1], tr[k - 1 + 1]);
      NextInv(c, tr[k - 1], tr[k]);
    }
  }
}
