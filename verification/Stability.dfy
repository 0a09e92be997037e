/** Facts that no step of the system can undo. */
module Stability {
  import opened Wrappers
  import opened Group
  import opened Paxos
  import opened MultiPaxos
  import opened Invariants

  /** Messages are only added, rounds only rise, and every new vote is at the voter's round or above. */
  ghost predicate Grows(c: Cluster, accs: seq<A.State>, sent: set<Message>,
                        accs': seq<A.State>, sent': set<Message>) {
    && |accs| == |accs'| == c.Size()
    && sent <= sent'
    && (forall k :: 0 <= k < c.Size() ==> AtMost(accs[k].rnd, accs'[k].rnd))
    && (forall k: nat, s, r, v :: Voted(c, sent', k, s, r, v) ==>
          Voted(c, sent, k, s, r, v) || AtMost(accs[k].rnd, r))
  }

  ghost predicate SameVotes(c: Cluster, sent: set<Message>, sent': set<Message>) {
    && sent <= sent'
    && forall k: nat, s, r, v :: Voted(c, sent', k, s, r, v) ==> Voted(c, sent, k, s, r, v)
  }

  /** Safe accepts stay safe: their quorum can cast no further vote below their round. */
  lemma JustifiedStable(c: Cluster, accs: seq<A.State>, sent: set<Message>,
                        accs': seq<A.State>, sent': set<Message>, m: Accept, q: set<nat>, base: Option<Round>)
    requires Grows(c, accs, sent, accs', sent')
    requires Justified(c, accs, sent, m, q, base)
    ensures Justified(c, accs', sent', m, q, base)
  {
    forall k | k in q
      ensures k < |accs'| && AtMost(m.rnd, accs'[k].rnd)
    {
      assert AtMost(m.rnd, accs[k].rnd) && AtMost(accs[k].rnd, accs'[k].rnd);
    }
    forall k: nat, r, v | Voted(c, sent', k, m.slot, r, v) && k in q && Less(r, m.rnd)
      ensures base.Some? && AtMost(r, base.value)
    {
      assert AtMost(m.rnd, accs[k].rnd);
      assert Voted(c, sent, k, m.slot, r, v);
    }
  }

  lemma AcceptInvStable(c: Cluster, accs: seq<A.State>, sent: set<Message>, submitted: set<Value>,
                        accs': seq<A.State>, sent': set<Message>, submitted': set<Value>, m: Accept)
    requires Grows(c, accs, sent, accs', sent') && submitted <= submitted'
    requires AcceptInv(c, accs, sent, submitted, m)
    ensures AcceptInv(c, accs', sent', submitted', m)
  {
    var q, base :| Justified(c, accs, sent, m, q, base);
    JustifiedStable(c, accs, sent, accs', sent', m, q, base);
  }

  lemma PromiseInvStable(c: Cluster, accs: seq<A.State>, sent: set<Message>,
                         accs': seq<A.State>, sent': set<Message>, m: Promise)
    requires Grows(c, accs, sent, accs', sent')
    requires PromiseInv(c, accs, sent, m)
    ensures PromiseInv(c, accs', sent', m)
  {
    var a: nat := m.id.paxosID;
    assert AtMost(accs[a].rnd, accs'[a].rnd);
    var p: Prepare :| PrepareMsg(p) in sent && p.crnd == m.rnd && Covers(c, sent, m, p.slot);
    forall s, r, v | Voted(c, sent', a, s, r, v) && p.slot <= s && Less(r, m.rnd)
      ensures Reports(m, s, r)
    {
      assert Voted(c, sent, a, s, r, v);
    }
    assert PrepareMsg(p) in sent' && Covers(c, sent', m, p.slot);
    forall e | e in m.accSlots
      ensures EntryOk(c, sent', m, e)
    {
      assert EntryOk(c, sent, m, e);
    }
  }

  /** All promises and accepts of s still satisfy their invariants in s'. */
  lemma MessagesStable(c: Cluster, s: System, s': System)
    requires VotingInv(c, s)
    requires Grows(c, s.accs, s.sent, s'.accs, s'.sent) && s.submitted <= s'.submitted
    ensures forall m :: PromiseMsg(m) in s.sent ==> PromiseInv(c, s'.accs, s'.sent, m)
    ensures forall m :: AcceptMsg(m) in s.sent ==> AcceptInv(c, s'.accs, s'.sent, s'.submitted, m)
  {
    forall m | PromiseMsg(m) in s.sent
      ensures PromiseInv(c, s'.accs, s'.sent, m)
    {
      PromiseInvStable(c, s.accs, s.sent, s'.accs, s'.sent, m);
    }
    forall m | AcceptMsg(m) in s.sent
      ensures AcceptInv(c, s'.accs, s'.sent, s'.submitted, m)
    {
      AcceptInvStable(c, s.accs, s.sent, s.submitted, s'.accs, s'.sent, s'.submitted, m);
    }
  }

  lemma ReadyStable(c: Cluster, accs: seq<A.State>, sent: set<Message>,
                    accs': seq<A.State>, sent': set<Message>, st: P.State, i: SlotID)
    requires Grows(c, accs, sent, accs', sent')
    requires forall k :: k in Senders(st.phaseOnePromises) ==> k < c.Size() && AtMost(st.crnd, accs[k].rnd)
    requires Ready(c, sent, st, i)
    ensures Ready(c, sent', st, i)
  {
    forall k: nat, r, v | Voted(c, sent', k, i, r, v) && k in Senders(st.phaseOnePromises) && Less(r, st.crnd)
      ensures P.ProposalAt(st, i).Some? && AtMost(r, P.ProposalAt(st, i).value.rnd)
    {
      assert AtMost(st.crnd, accs[k].rnd);
      assert Voted(c, sent, k, i, r, v);
    }
  }

  /** Replicas whose promise is stored have joined the proposer's round. */
  lemma SendersJoined(c: Cluster, s: System, p: nat, k: nat)
    requires Shape(c, s) && PromisesInv(c, s)
    requires p < c.Size()
    requires forall j: nat :: j < |s.props[p].phaseOnePromises| ==> PromiseStored(s.sent, s.props[p], j)
    requires k in Senders(s.props[p].phaseOnePromises)
    ensures k in c.acceptors && k < c.Size() && AtMost(s.props[p].crnd, s.accs[k].rnd)
  {
    var m := s.props[p].phaseOnePromises[k].value;
    assert PromiseStored(s.sent, s.props[p], k);
    assert PromiseInv(c, s.accs, s.sent, m);
  }

  /** A replica that takes no step keeps its invariant as an acceptor. */
  lemma AcceptorInvStable(c: Cluster, sent: set<Message>, sent': set<Message>, a: nat, st: A.State)
    requires a < c.Size() && sent <= sent'
    requires forall s, r, v :: Voted(c, sent', a, s, r, v) ==> Voted(c, sent, a, s, r, v)
    requires AcceptorInv(c, sent, a, st)
    ensures AcceptorInv(c, sent', a, st)
  {
    forall s: SlotID
      ensures SlotInv(c, sent', a, st, s)
    {
      assert SlotInv(c, sent, a, st, s);
    }
    forall s, r, v | Voted(c, sent', a, s, r, v)
      ensures VoteInv(st, sent', c.first, s, r, v)
    {
      assert VoteInv(st, sent, c.first, s, r, v);
    }
  }

  /** A replica that takes no step keeps its invariant as a proposer, if no one else uses its rounds. */
  lemma ProposerInvStable(c: Cluster, s: System, accs': seq<A.State>, sent': set<Message>, submitted': set<Value>,
                          p: nat)
    requires VotingInv(c, s) && p < c.Size()
    requires Grows(c, s.accs, s.sent, accs', sent') && s.submitted <= submitted'
    requires forall m :: PrepareMsg(m) in sent' ==> PrepareMsg(m) in s.sent || m.crnd.id != c.ids[p]
    requires forall m :: AcceptMsg(m) in sent' ==> AcceptMsg(m) in s.sent || m.rnd.id != c.ids[p]
    ensures ProposerInv(c, sent', submitted', p, s.props[p])
  {
    var st := s.props[p];
    assert ProposerInv(c, s.sent, s.submitted, p, st);
    forall k: nat | k < |st.phaseOnePromises|
      ensures PromiseStored(sent', st, k)
    {
      assert PromiseStored(s.sent, st, k);
    }
    forall i: SlotID
      ensures ProposalInv(sent', st, i)
    {
      assert ProposalInv(s.sent, st, i);
    }
    if st.phaseOneDone {
      forall i: SlotID | st.nextSlot <= i
        ensures Ready(c, sent', st, i)
      {
        forall k | k in Senders(st.phaseOnePromises)
          ensures k < c.Size() && AtMost(st.crnd, s.accs[k].rnd)
        {
          SendersJoined(c, s, p, k);
        }
        assert Ready(c, s.sent, st, i);
        ReadyStable(c, s.accs, s.sent, accs', sent', st, i);
      }
    }
    forall m | PrepareMsg(m) in sent'
      ensures OwnPrepare(st, m)
    {
    }
    forall m | AcceptMsg(m) in sent'
      ensures OwnAccept(st, m)
    {
    }
  }
}
