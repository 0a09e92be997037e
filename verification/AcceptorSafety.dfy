/** The acceptors' steps keep the voting invariant. */
module AcceptorSafety {
  import opened Wrappers
  import opened Group
  import opened Paxos
  import opened MultiPaxos
  import opened Invariants
  import opened Stability

  /** The reported votes cover every earlier vote of the acceptor from the prepared slot on. */
  lemma PromiseCovers(c: Cluster, s: System, i: nat, msg: Prepare)
    requires VotingInv(c, s) && i < c.Size()
    requires A.PrepareStep(s.accs[i], msg).1.Some?
    ensures Covers(c, s.sent, A.PrepareStep(s.accs[i], msg).1.value, msg.slot)
  {
    var st := s.accs[i];
    var m := A.PrepareStep(st, msg).1.value;
    assert AcceptorInv(c, s.sent, i, st);
    forall j, r, v | Voted(c, s.sent, i, j, r, v) && msg.slot <= j && Less(r, msg.crnd)
      ensures Reports(m, j, r)
    {
      assert VoteInv(st, s.sent, c.first, j, r, v);
      assert SlotInv(c, s.sent, i, st, j);
      var e := A.SlotAt(st.slots, j);
      assert A.Voted(st.slots, j);
      A.VotesInMember(st.slots, msg.slot, st.maxSeen + 1, e);
      assert e in m.accSlots;
    }
  }

  lemma PromiseEntries(c: Cluster, s: System, i: nat, msg: Prepare, e: AcceptorSlot)
    requires VotingInv(c, s) && i < c.Size()
    requires A.PrepareStep(s.accs[i], msg).1.Some?
    requires e in A.PrepareStep(s.accs[i], msg).1.value.accSlots
    ensures EntryOk(c, s.sent, A.PrepareStep(s.accs[i], msg).1.value, e)
  {
    var st := s.accs[i];
    assert AcceptorInv(c, s.sent, i, st);
    A.VotesInMember(st.slots, msg.slot, st.maxSeen + 1, e);
    if e !in A.Padding(msg.slot, st.maxSeen) {
      var j: SlotID :| msg.slot <= j < st.maxSeen + 1 && A.Voted(st.slots, j) && e == A.SlotAt(st.slots, j);
      assert SlotInv(c, s.sent, i, st, j);
      assert VoteInv(st, s.sent, c.first, j, e.vrnd, e.vval);
    }
  }

  /** Raising the round and creating empty slots keeps an acceptor's invariant. */
  lemma AcceptorInvRaised(c: Cluster, sent: set<Message>, a: nat, st: A.State, st': A.State)
    requires a < c.Size() && AcceptorInv(c, sent, a, st)
    requires st' == st.(slots := st'.slots, rnd := st'.rnd, maxSeen := st'.maxSeen)
    requires AtMost(st.rnd, st'.rnd) && st.maxSeen <= st'.maxSeen
    requires forall i: SlotID :: A.SlotAt(st'.slots, i) == A.SlotAt(st.slots, i)
    ensures AcceptorInv(c, sent, a, st')
  {
    forall i: SlotID
      ensures SlotInv(c, sent, a, st', i)
    {
      assert SlotInv(c, sent, a, st, i);
    }
    forall i, r, v | Voted(c, sent, a, i, r, v)
      ensures VoteInv(st', sent, c.first, i, r, v)
    {
      assert VoteInv(st, sent, c.first, i, r, v);
    }
  }

  /** An acceptor's step that grows the votes keeps all other parts of the invariant. */
  lemma AcceptorStepKeeps(c: Cluster, s: System, i: nat, a: A.State, m: Message)
    requires VotingInv(c, s) && i < c.Size()
    requires m.PromiseMsg? || (m.LearnMsg? && m.learn.id == c.ids[i])
    requires Grows(c, s.accs, s.sent, s.accs[i := a], s.sent + {m})
    requires AcceptorInv(c, s.sent + {m}, i, a)
    requires m.PromiseMsg? ==> PromiseInv(c, s.accs[i := a], s.sent + {m}, m.promise)
    ensures VotingInv(c, s.(accs := s.accs[i := a], sent := s.sent + {m}))
  {
    var s' := s.(accs := s.accs[i := a], sent := s.sent + {m});
    forall k: nat | k < c.Size()
      ensures AcceptorInv(c, s'.sent, k, s'.accs[k])
      ensures ProposerInv(c, s'.sent, s'.submitted, k, s'.props[k])
    {
      if k != i {
        AcceptorInvStable(c, s.sent, s'.sent, k, s.accs[k]);
      }
      ProposerInvStable(c, s, s'.accs, s'.sent, s'.submitted, k);
    }
    MessagesStable(c, s, s');
  }

  lemma PrepareActInv(c: Cluster, s: System, i: nat, msg: Prepare)
    requires VotingInv(c, s) && Enabled(c, s, PrepareAct(i, msg))
    ensures VotingInv(c, Apply(s, PrepareAct(i, msg)))
  {
    var st := s.accs[i];
    var (a, promise) := A.PrepareStep(st, msg);
    assert AcceptorInv(c, s.sent, i, st);
    if promise.None? {
      assert s.accs[i := a] == s.accs;
    } else {
      var m := promise.value;
      var sent', accs' := s.sent + {PromiseMsg(m)}, s.accs[i := a];
      AcceptorInvRaised(c, s.sent, i, st, a);
      AcceptorInvStable(c, s.sent, sent', i, a);
      assert Grows(c, s.accs, s.sent, accs', sent');
      forall e | e in m.accSlots
        ensures EntryOk(c, s.sent, m, e)
      {
        PromiseEntries(c, s, i, msg, e);
      }
      PromiseCovers(c, s, i, msg);
      assert PrepareMsg(msg) in sent' && msg.crnd == m.rnd && Covers(c, sent', m, msg.slot);
      AcceptorStepKeeps(c, s, i, a, PromiseMsg(m));
    }
  }

  lemma VoteCast(c: Cluster, s: System, i: nat, msg: Accept)
    requires VotingInv(c, s) && Enabled(c, s, AcceptAct(i, msg))
    requires A.AcceptStep(s.accs[i], msg).1.Some?
    ensures var (a, learn) := A.AcceptStep(s.accs[i], msg);
            && learn.value == Learn(c.ids[i], msg.slot, msg.rnd, msg.val, [])
            && AcceptorInv(c, s.sent + {LearnMsg(learn.value)}, i, a)
  {
    var st := s.accs[i];
    var (a, learn) := A.AcceptStep(st, msg);
    var sent' := s.sent + {LearnMsg(learn.value)};
    assert AcceptorInv(c, s.sent, i, st);
    assert SlotInv(c, s.sent, i, st, msg.slot);
    assert AcceptInv(c, s.accs, s.sent, s.submitted, msg);
    forall j: SlotID
      ensures SlotInv(c, sent', i, a, j)
    {
      assert SlotInv(c, s.sent, i, st, j);
      if j == msg.slot {
        assert Voted(c, sent', i, j, msg.rnd, msg.val);
      } else {
        assert A.SlotAt(a.slots, j) == A.SlotAt(st.slots, j);
      }
    }
    forall j, r, v | Voted(c, sent', i, j, r, v)
      ensures VoteInv(a, sent', c.first, j, r, v)
    {
      assert A.SlotAt(a.slots, j) == A.SlotAt(st.slots, j) || j == msg.slot;
      if Voted(c, s.sent, i, j, r, v) {
        assert VoteInv(st, s.sent, c.first, j, r, v);
      }
    }
  }

  lemma AcceptActInv(c: Cluster, s: System, i: nat, msg: Accept)
    requires VotingInv(c, s) && Enabled(c, s, AcceptAct(i, msg))
    ensures VotingInv(c, Apply(s, AcceptAct(i, msg)))
  {
    var st := s.accs[i];
    var (a, learn) := A.AcceptStep(st, msg);
    assert AcceptorInv(c, s.sent, i, st);
    if learn.None? {
      AcceptorInvRaised(c, s.sent, i, st, a);
      AcceptorReplaced(c, s, i, a);
    } else {
      VoteCast(c, s, i, msg);
      var m := LearnMsg(learn.value);
      assert forall k: nat, j, r, v ::
          Voted(c, s.sent + {m}, k, j, r, v) && !Voted(c, s.sent, k, j, r, v) ==> c.ids[k] == c.ids[i] && r == msg.rnd;
      assert Grows(c, s.accs, s.sent, s.accs[i := a], s.sent + {m});
      AcceptorStepKeeps(c, s, i, a, m);
    }
  }

  lemma AcceptorReplaced(c: Cluster, s: System, i: nat, a: A.State)
    requires VotingInv(c, s) && i < c.Size()
    requires AcceptorInv(c, s.sent, i, a) && a.rnd == s.accs[i].rnd
    ensures VotingInv(c, s.(accs := s.accs[i := a]))
  {
    var s' := s.(accs := s.accs[i := a]);
    assert Grows(c, s.accs, s.sent, s'.accs, s.sent);
    MessagesStable(c, s, s');
  }
}
