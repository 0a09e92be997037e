/** The proposers' steps keep the voting invariant. */
module ProposerSafety {
  import opened Wrappers
  import opened Group
  import opened Paxos
  import opened MultiPaxos
  import opened Invariants
  import opened Stability
  import F = ProposerFacts

  // ----- Changing a proposer's state and sending its messages

  /** A change of one proposer that sends nothing and keeps its own invariant. */
  lemma ProposerReplaced(c: Cluster, s: System, p: nat, st: P.State, submitted': set<Value>)
    requires VotingInv(c, s) && p < c.Size()
    requires s.submitted <= submitted'
    requires ProposerInv(c, s.sent, submitted', p, st)
    ensures VotingInv(c, s.(props := s.props[p := st], submitted := submitted'))
  {
    var s' := s.(props := s.props[p := st], submitted := submitted');
    forall k: nat | k < c.Size()
      ensures ProposerInv(c, s'.sent, s'.submitted, k, s'.props[k])
    {
      if k != p {
        ProposerInvStable(c, s, s.accs, s.sent, submitted', k);
      }
    }
    MessagesStable(c, s, s');
  }

  /** Only prepares and accepts of proposer p's own rounds are new in sent'. */
  ghost predicate SentBy(c: Cluster, p: nat, sent: set<Message>, sent': set<Message>)
    requires p < c.Size()
  {
    && sent <= sent'
    && forall m :: m in sent' && m !in sent ==>
         && (m.PrepareMsg? || m.AcceptMsg?)
         && (m.PrepareMsg? ==> m.prepare.crnd.id == c.ids[p])
         && (m.AcceptMsg? ==> m.accept.rnd.id == c.ids[p])
  }

  /** Broadcasting prepares and safe accepts keeps the invariant if the proposer's own part holds after it. */
  lemma ProposerBroadcasts(c: Cluster, s: System, p: nat, st: P.State, sent': set<Message>)
    requires VotingInv(c, s) && p < c.Size()
    requires SentBy(c, p, s.sent, sent')
    requires forall m :: AcceptMsg(m) in sent' && AcceptMsg(m) !in s.sent ==> AcceptInv(c, s.accs, s.sent, s.submitted, m)
    requires OneValuePerRound(sent')
    requires ProposerInv(c, sent', s.submitted, p, st)
    ensures VotingInv(c, s.(props := s.props[p := st], sent := sent'))
  {
    var s' := s.(props := s.props[p := st], sent := sent');
    assert SameVotes(c, s.sent, sent');
    forall k: nat | k < c.Size()
      ensures ProposerInv(c, s'.sent, s'.submitted, k, s'.props[k])
      ensures AcceptorInv(c, s'.sent, k, s'.accs[k])
    {
      AcceptorInvStable(c, s.sent, sent', k, s.accs[k]);
      if k != p {
        assert c.ids[k] != c.ids[p];
        ProposerInvStable(c, s, s.accs, sent', s.submitted, k);
      }
    }
    MessagesStable(c, s, s');
    forall m | AcceptMsg(m) in sent' && AcceptMsg(m) !in s.sent
      ensures AcceptInv(c, s.accs, sent', s.submitted, m)
    {
      AcceptInvStable(c, s.accs, s.sent, s.submitted, s.accs, sent', s.submitted, m);
    }
  }

  // ----- Sending accepts

  /** The round of a stored promise has been prepared, so it is past the initial one. */
  lemma PromisedRound(c: Cluster, s: System, p: nat)
    requires VotingInv(c, s) && p < c.Size()
    requires Senders(s.props[p].phaseOnePromises) != {}
    ensures s.props[p].crnd.rnd >= 2
  {
    var st := s.props[p];
    assert ProposerInv(c, s.sent, s.submitted, p, st);
    var k :| k in Senders(st.phaseOnePromises);
    assert PromiseStored(s.sent, st, k);
    var m := st.phaseOnePromises[k].value;
    assert PromiseInv(c, s.accs, s.sent, m);
    var q: Prepare :| PrepareMsg(q) in s.sent && q.crnd == m.rnd && Covers(c, s.sent, m, q.slot);
    assert OwnPrepare(st, q);
  }

  /** An accept for a slot that is ready is safe. */
  lemma ReadyAcceptSafe(c: Cluster, s: System, p: nat, r: P.State, i: SlotID)
    requires VotingInv(c, s) && p < c.Size()
    requires s.props[p].phaseOneDone && s.props[p].nextSlot <= i
    requires F.AcceptFor(s.props[p], r, i)
    ensures AcceptInv(c, s.accs, s.sent, s.submitted, P.ProposalAt(r, i).value)
  {
    var st := s.props[p];
    var m := P.ProposalAt(r, i).value;
    assert ProposerInv(c, s.sent, s.submitted, p, st);
    var q := Senders(st.phaseOnePromises);
    forall k | k in q
      ensures k in c.acceptors && k < c.Size() && AtMost(st.crnd, s.accs[k].rnd)
    {
      SendersJoined(c, s, p, k);
    }
    PromisedRound(c, s, p);
    assert Ready(c, s.sent, st, i) && ProposalInv(s.sent, st, i);
    var was := P.ProposalAt(st, i);
    var base := if was.Some? then Some(was.value.rnd) else None;
    if was.Some? {
      var kept := Accept(was.value.rnd.id, i, was.value.rnd, was.value.val);
      assert AcceptMsg(kept) in s.sent;
      assert OwnAccept(st, kept);
      assert AcceptInv(c, s.accs, s.sent, s.submitted, kept);
    }
    assert Justified(c, s.accs, s.sent, m, q, base);
  }

  lemma OnlyAccepts(c: Cluster, s: System, p: nat, r: P.State, out: seq<Message>)
    requires Shape(c, s) && p < c.Size()
    requires F.SendEffect(s.props[p], r, out)
    ensures forall m :: m in out ==> m.AcceptMsg?
    ensures SameVotes(c, s.sent, s.sent + Items(out))
  {
    forall m | m in out
      ensures m.AcceptMsg?
    {
      var j: nat :| j < |out| && out[j] == m;
      assert F.IsProposal(r, s.props[p].nextSlot + j, out[j]);
    }
  }

  /** What sendAccept leaves behind satisfies the proposer's invariant. */
  lemma SentProposer(c: Cluster, s: System, p: nat, r: P.State, out: seq<Message>)
    requires VotingInv(c, s) && p < c.Size() && s.props[p].phaseOneDone
    requires F.SendEffect(s.props[p], r, out)
    ensures ProposerInv(c, s.sent + Items(out), s.submitted, p, r)
  {
    var st := s.props[p];
    var sent' := s.sent + Items(out);
    assert ProposerInv(c, s.sent, s.submitted, p, st);
    OnlyAccepts(c, s, p, r, out);
    forall k: nat | k < |r.phaseOnePromises|
      ensures PromiseStored(sent', r, k)
    {
      assert PromiseStored(s.sent, st, k);
    }
    forall m | AcceptMsg(m) in sent'
      ensures OwnAccept(r, m)
    {
      if AcceptMsg(m) in s.sent {
        assert OwnAccept(st, m);
      } else {
        var j: nat :| j < |out| && out[j] == AcceptMsg(m);
        assert F.IsProposal(r, st.nextSlot + j, out[j]) && F.AcceptFor(st, r, st.nextSlot + j);
      }
    }
    forall m | PrepareMsg(m) in sent'
      ensures OwnPrepare(r, m)
    {
      assert OwnPrepare(st, m);
    }
    forall i: SlotID
      ensures ProposalInv(sent', r, i)
      ensures r.adu < i < r.nextSlot ==> WindowInv(r, i)
      ensures r.nextSlot <= i ==> Ready(c, sent', r, i)
    {
      if st.nextSlot <= i < r.nextSlot {
        assert F.AcceptFor(st, r, i);
        assert F.IsProposal(r, st.nextSlot + (i - st.nextSlot), out[i - st.nextSlot]);
        assert out[i - st.nextSlot] in Items(out);
      } else {
        assert P.ProposalAt(r, i) == P.ProposalAt(st, i);
        assert ProposalInv(s.sent, st, i);
        assert st.adu < i < st.nextSlot ==> WindowInv(st, i);
        if r.nextSlot <= i {
          assert Ready(c, s.sent, st, i);
        }
      }
    }
  }

  /** The accepts of one call are for distinct, so far unused slots of the round. */
  lemma SentOneValue(c: Cluster, s: System, p: nat, r: P.State, out: seq<Message>)
    requires VotingInv(c, s) && p < c.Size() && s.props[p].phaseOneDone
    requires F.SendEffect(s.props[p], r, out)
    ensures OneValuePerRound(s.sent + Items(out))
  {
    var st := s.props[p];
    assert ProposerInv(c, s.sent, s.submitted, p, st);
    forall m | AcceptMsg(m) in s.sent + Items(out)
      ensures AcceptMsg(m) in s.sent
              || (m.rnd == st.crnd && m.slot >= st.nextSlot && P.ProposalAt(r, m.slot) == Some(m))
    {
      if AcceptMsg(m) !in s.sent {
        var j: nat :| j < |out| && out[j] == AcceptMsg(m);
        assert F.IsProposal(r, st.nextSlot + j, out[j]) && F.AcceptFor(st, r, st.nextSlot + j);
      }
    }
    forall m | AcceptMsg(m) in s.sent && m.rnd == st.crnd
      ensures m.slot < st.nextSlot
    {
      assert OwnAccept(st, m);
    }
  }

  lemma SentSafe(c: Cluster, s: System, p: nat, r: P.State, out: seq<Message>)
    requires VotingInv(c, s) && p < c.Size() && s.props[p].phaseOneDone
    requires F.SendEffect(s.props[p], r, out)
    ensures SentBy(c, p, s.sent, s.sent + Items(out))
    ensures forall m :: AcceptMsg(m) in Items(out) ==> AcceptInv(c, s.accs, s.sent, s.submitted, m)
  {
    var st := s.props[p];
    OnlyAccepts(c, s, p, r, out);
    assert ProposerInv(c, s.sent, s.submitted, p, st);
    forall m | AcceptMsg(m) in Items(out)
      ensures m.rnd.id == c.ids[p]
      ensures AcceptInv(c, s.accs, s.sent, s.submitted, m)
    {
      var j: nat :| j < |out| && out[j] == AcceptMsg(m);
      assert F.IsProposal(r, st.nextSlot + j, out[j]) && F.AcceptFor(st, r, st.nextSlot + j);
      ReadyAcceptSafe(c, s, p, r, st.nextSlot + j);
    }
  }

  lemma SendAcceptsInv(c: Cluster, s: System, p: nat)
    requires VotingInv(c, s) && p < c.Size() && s.props[p].phaseOneDone
    ensures var (r, out) := P.SendAccepts(s.props[p]);
            VotingInv(c, s.(props := s.props[p := r], sent := s.sent + Items(out)))
  {
    var st := s.props[p];
    var (r, out) := P.SendAccepts(st);
    assert ProposerInv(c, s.sent, s.submitted, p, st);
    F.SendAcceptsEffect(st);
    SentProposer(c, s, p, r, out);
    SentOneValue(c, s, p, r, out);
    SentSafe(c, s, p, r, out);
    ProposerBroadcasts(c, s, p, r, s.sent + Items(out));
  }

  /** The same after a change of the proposer that has not been stored yet. */
  lemma SendAfter(c: Cluster, s: System, p: nat, t: P.State, submitted': set<Value>)
    requires Shape(c, s) && p < c.Size()
    requires VotingInv(c, s.(props := s.props[p := t], submitted := submitted'))
    ensures t.phaseOneDone ==>
              var (r, out) := P.SendAccepts(t);
              VotingInv(c, s.(props := s.props[p := r], sent := s.sent + Items(out), submitted := submitted'))
  {
    if t.phaseOneDone {
      var s1 := s.(props := s.props[p := t], submitted := submitted');
      SendAcceptsInv(c, s1, p);
      var r := P.SendAccepts(t).0;
      assert s1.props[p := r] == s.props[p := r];
    }
  }

  // ----- Restarting phase one and resending

  /** Every resend repeats an accept already broadcast. */
  lemma ResendsAreOld(c: Cluster, s: System, p: nat, m: Accept)
    requires VotingInv(c, s) && p < c.Size() && s.props[p].phaseOneDone
    requires AcceptMsg(m) in P.ResendFrom(s.props[p], s.props[p].adu + 1).1
    ensures AcceptMsg(m) in s.sent
  {
    var st := s.props[p];
    assert ProposerInv(c, s.sent, s.submitted, p, st);
    F.ResendFromEffect(st, st.adu + 1);
    assert F.ResendsOrPrepares(st, P.ResendFrom(st, st.adu + 1).0, AcceptMsg(m));
    var i: SlotID :| st.adu < i < st.nextSlot && F.IsProposal(st, i, AcceptMsg(m));
    assert WindowInv(st, i) && ProposalInv(s.sent, st, i);
  }

  /** Any mix of old accepts and prepares for higher rounds keeps the invariant. */
  lemma RestartInv(c: Cluster, s: System, p: nat, r: P.State, out: seq<Message>)
    requires VotingInv(c, s) && p < c.Size()
    requires F.ResendEffect(s.props[p], r)
    requires forall m :: m in out ==> m in s.sent || (m.PrepareMsg? && F.ResendsOrPrepares(s.props[p], r, m))
    ensures VotingInv(c, s.(props := s.props[p := r], sent := s.sent + Items(out)))
  {
    var st := s.props[p];
    var sent' := s.sent + Items(out);
    assert ProposerInv(c, s.sent, s.submitted, p, st);
    assert SameVotes(c, s.sent, sent');
    forall i: SlotID
      ensures ProposalInv(sent', r, i)
      ensures r.phaseOneDone ==> (r.adu < i < r.nextSlot ==> WindowInv(r, i))
      ensures r.phaseOneDone ==> (r.nextSlot <= i ==> Ready(c, sent', r, i))
    {
      assert P.ProposalAt(r, i) == P.ProposalAt(st, i);
      assert ProposalInv(s.sent, st, i);
      if r.phaseOneDone {
        assert st.adu < i < st.nextSlot ==> WindowInv(st, i);
        assert st.nextSlot <= i ==> Ready(c, s.sent, st, i);
      }
    }
    forall k: nat | k < |r.phaseOnePromises|
      ensures PromiseStored(sent', r, k)
    {
      assert r.crnd == st.crnd ==> PromiseStored(s.sent, st, k);
    }
    forall m | AcceptMsg(m) in sent'
      ensures OwnAccept(r, m)
    {
      assert OwnAccept(st, m);
    }
    forall m | PrepareMsg(m) in sent'
      ensures OwnPrepare(r, m)
    {
      assert PrepareMsg(m) in s.sent ==> OwnPrepare(st, m);
      assert PrepareMsg(m) !in s.sent ==> F.ResendsOrPrepares(st, r, PrepareMsg(m));
    }
    assert Senders(P.NoPromises(st.nrOfNodes)) == {};
    assert F.Keyed(r) by {
      assert forall i: SlotID :: P.SlotAt(r.slots, i).id == P.SlotAt(st.slots, i).id;
    }
    ProposerBroadcasts(c, s, p, r, sent');
  }

  lemma ResendInv(c: Cluster, s: System, p: nat)
    requires VotingInv(c, s) && p < c.Size() && s.props[p].phaseOneDone
    ensures var (r, out) := P.ResendFrom(s.props[p], s.props[p].adu + 1);
            VotingInv(c, s.(props := s.props[p := r], sent := s.sent + Items(out)))
  {
    var (r, out) := P.ResendFrom(s.props[p], s.props[p].adu + 1);
    ResendMessages(c, s, p, r, out);
    RestartInv(c, s, p, r, out);
  }

  lemma ResendMessages(c: Cluster, s: System, p: nat, r: P.State, out: seq<Message>)
    requires VotingInv(c, s) && p < c.Size() && s.props[p].phaseOneDone
    requires (r, out) == P.ResendFrom(s.props[p], s.props[p].adu + 1)
    ensures F.ResendEffect(s.props[p], r)
    ensures forall m :: m in out ==> m in s.sent || (m.PrepareMsg? && F.ResendsOrPrepares(s.props[p], r, m))
  {
    F.ResendFromEffect(s.props[p], s.props[p].adu + 1);
    forall m | m in out
      ensures m in s.sent || (m.PrepareMsg? && F.ResendsOrPrepares(s.props[p], r, m))
    {
      assert F.ResendsOrPrepares(s.props[p], r, m);
      if m.AcceptMsg? {
        ResendsAreOld(c, s, p, m.accept);
      }
    }
  }

  lemma StartPhaseOneInv(c: Cluster, s: System, p: nat, clear: bool)
    requires VotingInv(c, s) && p < c.Size()
    ensures var (r, out) := P.StartPhaseOne(s.props[p], clear);
            VotingInv(c, s.(props := s.props[p := r], sent := s.sent + Items(out)))
  {
    var st := s.props[p];
    var (r, out) := P.StartPhaseOne(st, clear);
    var kept := r.(reqQueue := st.reqQueue);
    assert ProposerInv(c, s.sent, s.submitted, p, st);
    RestartInv(c, s, p, kept, out);
    var s1 := s.(props := s.props[p := kept], sent := s.sent + Items(out));
    assert ProposerInv(c, s1.sent, s1.submitted, p, s1.props[p]);
    QueueReplaced(c, s1, p, r.reqQueue, s1.submitted);
    assert s1.props[p := r] == s.props[p := r];
  }

  lemma QueueReplaced(c: Cluster, s: System, p: nat, queue: seq<Value>, submitted': set<Value>)
    requires VotingInv(c, s) && p < c.Size()
    requires s.submitted <= submitted' && forall v :: v in queue ==> v in submitted'
    ensures VotingInv(c, s.(props := s.props[p := s.props[p].(reqQueue := queue)], submitted := submitted'))
  {
    var st, t := s.props[p], s.props[p].(reqQueue := queue);
    assert ProposerInv(c, s.sent, s.submitted, p, st);
    SimpleChange(c, s, p, t, submitted');
  }

  /** Changing the leader, the request queue or the decided mark touches no promise and no proposal. */
  lemma SimpleChange(c: Cluster, s: System, p: nat, t: P.State, submitted': set<Value>)
    requires VotingInv(c, s) && p < c.Size() && s.submitted <= submitted'
    requires t == s.props[p].(leader := t.leader, reqQueue := t.reqQueue, adu := t.adu)
    requires s.props[p].adu <= t.adu
    requires forall v :: v in t.reqQueue ==> v in submitted'
    ensures VotingInv(c, s.(props := s.props[p := t], submitted := submitted'))
  {
    var st := s.props[p];
    assert ProposerInv(c, s.sent, s.submitted, p, st);
    forall k: nat | k < |t.phaseOnePromises|
      ensures PromiseStored(s.sent, t, k)
    {
      assert PromiseStored(s.sent, st, k);
    }
    forall m | PrepareMsg(m) in s.sent
      ensures OwnPrepare(t, m)
    {
      assert OwnPrepare(st, m);
    }
    forall m | AcceptMsg(m) in s.sent
      ensures OwnAccept(t, m)
    {
      assert OwnAccept(st, m);
    }
    forall i: SlotID
      ensures ProposalInv(s.sent, t, i)
      ensures t.phaseOneDone ==> (t.adu < i < t.nextSlot ==> WindowInv(t, i))
      ensures t.phaseOneDone ==> (t.nextSlot <= i ==> Ready(c, s.sent, t, i))
    {
      assert P.ProposalAt(t, i) == P.ProposalAt(st, i);
      assert ProposalInv(s.sent, st, i);
      if t.phaseOneDone {
        assert st.adu < i < st.nextSlot ==> WindowInv(st, i);
        assert st.nextSlot <= i ==> Ready(c, s.sent, st, i);
      }
    }
    ProposerReplaced(c, s, p, t, submitted');
  }

  // ----- Promises

  /** A promise for the current round finds room in the promise list. */
  lemma PromiseFits(c: Cluster, s: System, p: nat, m: Promise)
    requires VotingInv(c, s) && p < c.Size() && PromiseMsg(m) in s.sent
    ensures P.HandleProm(s.props[p], m).Ok?
  {
    var st := s.props[p];
    assert ProposerInv(c, s.sent, s.submitted, p, st);
    assert PromiseInv(c, s.accs, s.sent, m);
    var q: Prepare :| PrepareMsg(q) in s.sent && q.crnd == m.rnd && Covers(c, s.sent, m, q.slot);
    assert OwnPrepare(st, q);
  }

  lemma PromiseStoredInv(c: Cluster, s: System, p: nat, m: Promise)
    requires VotingInv(c, s) && p < c.Size() && PromiseMsg(m) in s.sent
    ensures P.HandleProm(s.props[p], m).Ok?
    ensures VotingInv(c, s.(props := s.props[p := P.HandleProm(s.props[p], m).value.0]))
  {
    PromiseFits(c, s, p, m);
    var st := s.props[p];
    var t := P.HandleProm(st, m).value.0;
    assert ProposerInv(c, s.sent, s.submitted, p, st);
    if t == st {
      assert s.props[p := t] == s.props;
    } else {
      var i: nat := m.id.paxosID;
      assert Senders(t.phaseOnePromises) == Senders(st.phaseOnePromises) + {i};
      forall k: nat | k < |t.phaseOnePromises|
        ensures PromiseStored(s.sent, t, k)
      {
        assert PromiseStored(s.sent, st, k);
      }
      forall n | AcceptMsg(n) in s.sent
        ensures OwnAccept(t, n)
      {
        assert OwnAccept(st, n);
      }
      forall n | PrepareMsg(n) in s.sent
        ensures OwnPrepare(t, n)
      {
        assert OwnPrepare(st, n);
      }
      forall j: SlotID
        ensures ProposalInv(s.sent, t, j)
      {
        assert ProposalInv(s.sent, st, j);
      }
      ProposerReplaced(c, s, p, t, s.submitted);
    }
  }

  // ----- Completing phase one

  /** A stored promise reports every earlier vote of its sender above adu. */
  lemma EarlierVoteReported(c: Cluster, s: System, p: nat, k: nat, i: SlotID, r: Round, v: Value)
    requires VotingInv(c, s) && p < c.Size() && i > s.props[p].adu
    requires k in Senders(s.props[p].phaseOnePromises)
    requires Voted(c, s.sent, k, i, r, v) && Less(r, s.props[p].crnd)
    ensures Reports(s.props[p].phaseOnePromises[k].value, i, r)
  {
    var st := s.props[p];
    assert ProposerInv(c, s.sent, s.submitted, p, st);
    var m := st.phaseOnePromises[k].value;
    assert PromiseStored(s.sent, st, k);
    assert PromiseInv(c, s.accs, s.sent, m);
    var q: Prepare :| PrepareMsg(q) in s.sent && q.crnd == m.rnd && Covers(c, s.sent, m, q.slot);
    assert OwnPrepare(st, q);
  }

  /** After the merge, the proposal kept for a slot dominates every earlier vote of the promising acceptors. */
  lemma MergedReady(c: Cluster, s: System, p: nat, t: P.State, i: SlotID)
    requires VotingInv(c, s) && p < c.Size()
    requires F.MergeEffect(s.props[p], t, F.AllVotes(s.props[p].phaseOnePromises))
    requires i > s.props[p].adu
    ensures Ready(c, s.sent, t, i)
  {
    var st := s.props[p];
    var es := F.AllVotes(st.phaseOnePromises);
    forall k: nat, r, v | Voted(c, s.sent, k, i, r, v) && k in Senders(st.phaseOnePromises) && Less(r, st.crnd)
      ensures P.ProposalAt(t, i).Some? && AtMost(r, P.ProposalAt(t, i).value.rnd)
    {
      EarlierVoteReported(c, s, p, k, i, r, v);
      var m := st.phaseOnePromises[k].value;
      var e :| e in m.accSlots && e.id == i && AtMost(r, e.vrnd);
      assert e in es;
      assert F.Merged(P.ProposalAt(st, i), P.ProposalAt(t, i), es, i);
    }
  }

  lemma MergedProposal(c: Cluster, s: System, p: nat, t: P.State, i: SlotID)
    requires VotingInv(c, s) && p < c.Size()
    requires F.MergeEffect(s.props[p], t, F.AllVotes(s.props[p].phaseOnePromises))
    ensures ProposalInv(s.sent, t, i)
  {
    var st := s.props[p];
    var es := F.AllVotes(st.phaseOnePromises);
    assert ProposerInv(c, s.sent, s.submitted, p, st);
    var was, now := P.ProposalAt(st, i), P.ProposalAt(t, i);
    assert ProposalInv(s.sent, st, i);
    if i > st.adu && now.Some? && now != was {
      assert F.Merged(was, now, es, i);
      var e :| e in es && e.id == i && now.value == Accept(ZERO_ID, 0, e.vrnd, e.vval);
      var k :| 0 <= k < |st.phaseOnePromises| && st.phaseOnePromises[k].Some?
               && e in st.phaseOnePromises[k].value.accSlots;
      var m := st.phaseOnePromises[k].value;
      assert PromiseStored(s.sent, st, k);
      assert PromiseInv(c, s.accs, s.sent, m);
      assert EntryOk(c, s.sent, m, e);
    }
  }

  lemma CompletePhaseOneInv(c: Cluster, s: System, p: nat)
    requires VotingInv(c, s) && p < c.Size() && !s.props[p].phaseOneDone
    requires s.props[p].phaseOneCount >= s.props[p].quorum
    ensures var (r, out) := P.SendAccepts(P.Completed(s.props[p]));
            VotingInv(c, s.(props := s.props[p := r], sent := s.sent + Items(out)))
  {
    var u := P.Completed(s.props[p]);
    MergeReplaced(c, s, p);
    SendAfter(c, s, p, u, s.submitted);
  }

  lemma MergeReplaced(c: Cluster, s: System, p: nat)
    requires VotingInv(c, s) && p < c.Size() && !s.props[p].phaseOneDone
    requires s.props[p].phaseOneCount >= s.props[p].quorum
    ensures VotingInv(c, s.(props := s.props[p := P.Completed(s.props[p])]))
  {
    F.MergePromisesEffect(s.props[p], s.props[p].phaseOnePromises);
    MergedInv(c, s, p, P.MergePromises(s.props[p], s.props[p].phaseOnePromises));
    ProposerReplaced(c, s, p, P.Completed(s.props[p]), s.submitted);
  }

  lemma MergedInv(c: Cluster, s: System, p: nat, t: P.State)
    requires VotingInv(c, s) && p < c.Size() && !s.props[p].phaseOneDone
    requires s.props[p].phaseOneCount >= s.props[p].quorum
    requires F.MergeEffect(s.props[p], t, F.AllVotes(s.props[p].phaseOnePromises))
    ensures ProposerInv(c, s.sent, s.submitted, p, t.(phaseOneDone := true, nextSlot := t.adu + 1))
  {
    var st := s.props[p];
    var u := t.(phaseOneDone := true, nextSlot := t.adu + 1);
    assert ProposerInv(c, s.sent, s.submitted, p, st);
    forall k: nat | k < |u.phaseOnePromises|
      ensures PromiseStored(s.sent, u, k)
    {
      assert PromiseStored(s.sent, st, k);
    }
    forall n | AcceptMsg(n) in s.sent
      ensures OwnAccept(u, n)
    {
      assert OwnAccept(st, n);
    }
    forall n | PrepareMsg(n) in s.sent
      ensures OwnPrepare(u, n)
    {
      assert OwnPrepare(st, n);
    }
    forall i: SlotID
      ensures ProposalInv(s.sent, u, i)
      ensures u.nextSlot <= i ==> Ready(c, s.sent, u, i)
    {
      MergedProposal(c, s, p, t, i);
      assert P.ProposalAt(u, i) == P.ProposalAt(t, i);
      if u.nextSlot <= i {
        MergedReady(c, s, p, t, i);
      }
    }
    assert F.Keyed(u) by {
      assert forall i: SlotID :: P.SlotAt(t.slots, i).id == P.SlotAt(st.slots, i).id;
    }
  }
}
