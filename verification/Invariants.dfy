/** The invariant of a MultiPaxos run that agreement rests on. */
module Invariants {
  import opened Wrappers
  import opened Group
  import opened Paxos
  import opened MultiPaxos
  import F = ProposerFacts
  import Sets

  /** Acceptor a has voted for v in slot s at round r: it has broadcast the learn. */
  ghost predicate Voted(c: Cluster, sent: set<Message>, a: nat, s: SlotID, r: Round, v: Value) {
    a < c.Size() && LearnMsg(Learn(c.ids[a], s, r, v, [])) in sent
  }

  /** The owner of round r has broadcast an accept for v in slot s. */
  ghost predicate Proposed(sent: set<Message>, r: Round, s: SlotID, v: Value) {
    AcceptMsg(Accept(r.id, s, r, v)) in sent
  }

  ghost predicate IsQuorum(c: Cluster, q: set<nat>) {
    q <= c.acceptors && |q| >= c.Quorum()
  }

  // ----- Acceptors

  ghost predicate SlotInv(c: Cluster, sent: set<Message>, a: nat, st: A.State, s: SlotID) {
    var slot := A.SlotAt(st.slots, s);
    && slot.id == s
    && AtMost(slot.vrnd, st.rnd)
    && (slot.vrnd == ZERO_ROUND || Less(ZERO_ROUND, slot.vrnd))
    && (slot.vrnd != ZERO_ROUND ==> s <= st.maxSeen && Voted(c, sent, a, s, slot.vrnd, slot.vval))
  }

  ghost predicate VoteInv(st: A.State, sent: set<Message>, first: SlotID, s: SlotID, r: Round, v: Value) {
    && first <= s
    && Less(ZERO_ROUND, r)
    && AtMost(r, A.SlotAt(st.slots, s).vrnd)
    && Proposed(sent, r, s, v)
  }

  ghost predicate AcceptorInv(c: Cluster, sent: set<Message>, a: nat, st: A.State)
    requires a < c.Size()
  {
    && st.id == c.ids[a]
    && st.lowSlot == c.first
    && (forall s: SlotID :: SlotInv(c, sent, a, st, s))
    && (forall s, r, v :: Voted(c, sent, a, s, r, v) ==> VoteInv(st, sent, c.first, s, r, v))
  }

  // ----- Promises

  /** The promise reports, for every slot from lo on, a vote at least as high as each earlier vote. */
  ghost predicate Covers(c: Cluster, sent: set<Message>, m: Promise, lo: SlotID) {
    m.id.paxosID >= 0 &&
    forall s, r, v :: Voted(c, sent, m.id.paxosID, s, r, v) && lo <= s && Less(r, m.rnd) ==> Reports(m, s, r)
  }

  ghost predicate Reports(m: Promise, s: SlotID, r: Round) {
    exists e :: e in m.accSlots && e.id == s && AtMost(r, e.vrnd)
  }

  /** A reported entry is padding or a vote that the sender cast before the promised round. */
  ghost predicate EntryOk(c: Cluster, sent: set<Message>, m: Promise, e: AcceptorSlot) {
    e.id != 0 ==>
      && Less(ZERO_ROUND, e.vrnd) && Less(e.vrnd, m.rnd) && Proposed(sent, e.vrnd, e.id, e.vval)
      && m.id.paxosID >= 0 && Voted(c, sent, m.id.paxosID, e.id, e.vrnd, e.vval)
  }

  ghost predicate PromiseInv(c: Cluster, accs: seq<A.State>, sent: set<Message>, m: Promise) {
    && c.Member(m.id) && m.id.paxosID in c.acceptors && m.id.paxosID < |accs|
    && AtMost(m.rnd, accs[m.id.paxosID].rnd)
    && (forall e :: e in m.accSlots ==> EntryOk(c, sent, m, e))
    && exists p: Prepare :: PrepareMsg(p) in sent && p.crnd == m.rnd && Covers(c, sent, m, p.slot)
  }

  // ----- Accepts

  /**
   * The accept is safe: a quorum q has joined its round, and every vote q has
   * cast in the slot at a lower round is at most `base`, whose value it repeats.
   */
  ghost predicate Justified(c: Cluster, accs: seq<A.State>, sent: set<Message>, m: Accept,
                            q: set<nat>, base: Option<Round>) {
    && IsQuorum(c, q)
    && (forall k :: k in q ==> k < |accs| && AtMost(m.rnd, accs[k].rnd))
    && (base.Some? ==> Less(base.value, m.rnd) && Proposed(sent, base.value, m.slot, m.val))
    && forall k: nat, r, v :: Voted(c, sent, k, m.slot, r, v) && k in q && Less(r, m.rnd)
         ==> base.Some? && AtMost(r, base.value)
  }

  ghost predicate AcceptInv(c: Cluster, accs: seq<A.State>, sent: set<Message>, submitted: set<Value>, m: Accept) {
    && m.id == m.rnd.id
    && c.Member(m.rnd.id)
    && m.rnd.rnd >= 2
    && c.first <= m.slot
    && m.val in submitted
    && exists q, base :: Justified(c, accs, sent, m, q, base)
  }

  ghost predicate OneValuePerRound(sent: set<Message>) {
    forall m, n :: AcceptMsg(m) in sent && AcceptMsg(n) in sent && m.rnd == n.rnd && m.slot == n.slot
      ==> m.val == n.val
  }

  // ----- Proposers

  function Senders(ps: P.Promises): set<nat> {
    set k: nat | k < |ps| && ps[k].Some?
  }

  ghost predicate PromiseStored(sent: set<Message>, st: P.State, k: nat)
    requires k < |st.phaseOnePromises|
  {
    st.phaseOnePromises[k].Some? ==>
      var m := st.phaseOnePromises[k].value;
      PromiseMsg(m) in sent && m.rnd == st.crnd && m.id.paxosID == k
  }

  /** The kept proposal was broadcast at a round that is not above the current one. */
  ghost predicate ProposalInv(sent: set<Message>, st: P.State, i: SlotID) {
    var p := P.ProposalAt(st, i);
    p.Some? ==> AtMost(p.value.rnd, st.crnd) && Proposed(sent, p.value.rnd, i, p.value.val)
  }

  /** A slot in the window holds the accept of the current round. */
  ghost predicate WindowInv(st: P.State, i: SlotID) {
    var p := P.ProposalAt(st, i);
    p.Some? && p.value.id == st.id && p.value.slot == i && p.value.rnd == st.crnd
  }

  /** Slot i may be proposed: its proposal dominates every earlier vote of the promising acceptors. */
  ghost predicate Ready(c: Cluster, sent: set<Message>, st: P.State, i: SlotID) {
    forall k: nat, r, v :: Voted(c, sent, k, i, r, v) && k in Senders(st.phaseOnePromises) && Less(r, st.crnd)
      ==> P.ProposalAt(st, i).Some? && AtMost(r, P.ProposalAt(st, i).value.rnd)
  }

  ghost predicate OwnPrepare(st: P.State, m: Prepare) {
    m.crnd.id == st.id ==> 2 <= m.crnd.rnd <= st.crnd.rnd && m.slot <= st.adu
  }

  ghost predicate OwnAccept(st: P.State, m: Accept) {
    m.rnd.id == st.id ==>
      && m.rnd.rnd <= st.crnd.rnd
      && (m.rnd.rnd == st.crnd.rnd ==> st.phaseOneDone && m.slot < st.nextSlot)
  }

  ghost predicate ProposerShape(c: Cluster, p: nat, st: P.State)
    requires p < c.Size()
  {
    && st.id == c.ids[p] && st.crnd.id == st.id && st.crnd.rnd >= 1
    && st.nrOfNodes == c.Size() && st.quorum == c.Quorum()
    && c.first <= st.adu + 1 && c.first <= st.nextSlot
    && F.Keyed(st)
    && (|st.phaseOnePromises| == c.Size() || (st.phaseOnePromises == [] && st.crnd.rnd == 1))
    && st.phaseOneCount == |Senders(st.phaseOnePromises)|
    && (st.phaseOneDone ==> st.phaseOneCount >= st.quorum)
  }

  ghost predicate ProposerInv(c: Cluster, sent: set<Message>, submitted: set<Value>, p: nat, st: P.State)
    requires p < c.Size()
  {
    && ProposerShape(c, p, st)
    && (forall v :: v in st.reqQueue ==> v in submitted)
    && (forall k: nat :: k < |st.phaseOnePromises| ==> PromiseStored(sent, st, k))
    && (forall m :: PrepareMsg(m) in sent ==> OwnPrepare(st, m))
    && (forall m :: AcceptMsg(m) in sent ==> OwnAccept(st, m))
    && (forall i: SlotID :: ProposalInv(sent, st, i))
    && (st.phaseOneDone ==> forall i: SlotID :: st.adu < i < st.nextSlot ==> WindowInv(st, i))
    && (st.phaseOneDone ==> forall i: SlotID :: st.nextSlot <= i ==> Ready(c, sent, st, i))
  }

  // ----- The whole

  ghost predicate Shape(c: Cluster, s: System) {
    c.WellFormed() && |s.props| == |s.accs| == |s.lrns| == c.Size()
  }

  ghost predicate AcceptorsInv(c: Cluster, s: System)
    requires Shape(c, s)
  {
    forall a: nat :: a < c.Size() ==> AcceptorInv(c, s.sent, a, s.accs[a])
  }

  ghost predicate PromisesInv(c: Cluster, s: System) {
    forall m :: PromiseMsg(m) in s.sent ==> PromiseInv(c, s.accs, s.sent, m)
  }

  ghost predicate AcceptsInv(c: Cluster, s: System) {
    forall m :: AcceptMsg(m) in s.sent ==> AcceptInv(c, s.accs, s.sent, s.submitted, m)
  }

  ghost predicate ProposersInv(c: Cluster, s: System)
    requires Shape(c, s)
  {
    forall p: nat :: p < c.Size() ==> ProposerInv(c, s.sent, s.submitted, p, s.props[p])
  }

  ghost predicate VotingInv(c: Cluster, s: System) {
    && Shape(c, s)
    && AcceptorsInv(c, s)
    && PromisesInv(c, s)
    && AcceptsInv(c, s)
    && OneValuePerRound(s.sent)
    && ProposersInv(c, s)
  }

  // ----- Agreement from the invariant

  ghost predicate ChosenBy(c: Cluster, sent: set<Message>, q: set<nat>, s: SlotID, r: Round, v: Value) {
    IsQuorum(c, q) && forall k :: k in q ==> Voted(c, sent, k, s, r, v)
  }

  /** v is chosen in slot s: a quorum of acceptors voted for it at one round. */
  ghost predicate Chosen(c: Cluster, sent: set<Message>, s: SlotID, v: Value) {
    exists q, r :: ChosenBy(c, sent, q, s, r, v)
  }

  /** Two majorities of the acceptors share one. */
  lemma QuorumsIntersect(c: Cluster, q1: set<nat>, q2: set<nat>) returns (k: nat)
    requires IsQuorum(c, q1) && IsQuorum(c, q2)
    ensures k in q1 && k in q2
  {
    k := Sets.Pigeonhole(q1, q2, c.acceptors);
  }
}
