/** Agreement on single slots, from the invariant of a state. */
module Agreement {
  import opened Wrappers
  import opened Group
  import opened Paxos
  import opened MultiPaxos
  import opened Invariants

  /**
   * Safe proposals: an accept broadcast at round m.rnd carries the value of
   * anything chosen in its slot at a lower round.
   */
  lemma {:induction false} ProposalsSafe(c: Cluster, s: System, m: Accept, q: set<nat>, r: Round, v: Value)
    requires VotingInv(c, s)
    requires AcceptMsg(m) in s.sent
    requires ChosenBy(c, s.sent, q, m.slot, r, v) && Less(r, m.rnd)
    ensures m.val == v
    decreases m.rnd.rnd, m.rnd.id.paxosID + 128, m.rnd.id.epoch
  {
    assert AcceptInv(c, s.accs, s.sent, s.submitted, m);
    var q', base :| Justified(c, s.accs, s.sent, m, q', base);
    var k := QuorumsIntersect(c, q, q');
    assert Voted(c, s.sent, k, m.slot, r, v);
    var b := Accept(base.value.id, m.slot, base.value, m.val);
    assert AcceptMsg(b) in s.sent;
    if r == base.value {
      VotesAreProposed(c, s, k, m.slot, r, v);
    } else {
      ProposalsSafe(c, s, b, q, r, v);
    }
  }

  lemma VotesAreProposed(c: Cluster, s: System, a: nat, i: SlotID, r: Round, v: Value)
    requires VotingInv(c, s)
    requires Voted(c, s.sent, a, i, r, v)
    ensures Proposed(s.sent, r, i, v)
  {
    assert AcceptorInv(c, s.sent, a, s.accs[a]);
    assert VoteInv(s.accs[a], s.sent, c.first, i, r, v);
  }

  lemma ChosenIsProposed(c: Cluster, s: System, q: set<nat>, i: SlotID, r: Round, v: Value)
    requires VotingInv(c, s)
    requires ChosenBy(c, s.sent, q, i, r, v)
    ensures Proposed(s.sent, r, i, v)
  {
    var k := QuorumsIntersect(c, q, q);
    VotesAreProposed(c, s, k, i, r, v);
  }

  /** At most one value is ever chosen in a slot. */
  lemma ChosenUnique(c: Cluster, s: System, i: SlotID, v: Value, w: Value)
    requires VotingInv(c, s)
    requires Chosen(c, s.sent, i, v) && Chosen(c, s.sent, i, w)
    ensures v == w
  {
    var q1, r1 :| ChosenBy(c, s.sent, q1, i, r1, v);
    var q2, r2 :| ChosenBy(c, s.sent, q2, i, r2, w);
    ChosenIsProposed(c, s, q1, i, r1, v);
    ChosenIsProposed(c, s, q2, i, r2, w);
    if Less(r1, r2) {
      ProposalsSafe(c, s, Accept(r2.id, i, r2, w), q1, r1, v);
    } else if Less(r2, r1) {
      ProposalsSafe(c, s, Accept(r1.id, i, r1, v), q2, r2, w);
    }
  }
}
