/**
 * When the processors of the token ring learn: what a slot holds, in terms of the set
 * of replicas that its learns came from.
 */
module RingLearning {
  import opened Wrappers
  import opened Group
  import opened Paxos
  import opened TokenRing
  import opened Progress
  import Arithmetic
  import Sets
  import L = Learners

  /** The k-th learn is the first that makes the distinct senders of the highest round so far a quorum. */
  ghost predicate Completing(ms: seq<Learn>, k: nat, quorum: nat) {
    && k < |ms|
    && HandedOut(ms[..k], ms[k], quorum)
    && forall j: nat :: j < k ==> !HandedOut(ms[..j], ms[j], quorum)
  }

  /** The slot is learned exactly if a learn was completing, with its value; before, it counts the highest round. */
  ghost predicate Follows(slot: L.LearnerSlot, i: SlotID, ms: seq<Learn>, nrOfNodes: nat, quorum: nat) {
    && slot.id == i
    && (slot.learned <==> exists k: nat :: Completing(ms, k, quorum))
    && (slot.learned ==> exists k: nat :: Completing(ms, k, quorum) && slot.learnedVal == ms[k].val)
    && (!slot.learned ==> Tally(slot, i, ms, nrOfNodes))
  }

  lemma CompletingStays(ms: seq<Learn>, m: Learn, k: nat, quorum: nat)
    requires k < |ms|
    ensures Completing(ms + [m], k, quorum) <==> Completing(ms, k, quorum)
  {
    assert forall j: nat :: j <= k ==> (ms + [m])[..j] == ms[..j] && (ms + [m])[j] == ms[j];
  }

  /** Without a completing learn none has handed out the value. */
  lemma {:induction false} NoneHandedOut(ms: seq<Learn>, j: nat, quorum: nat)
    requires j < |ms| && forall k: nat :: !Completing(ms, k, quorum)
    ensures !HandedOut(ms[..j], ms[j], quorum)
  {
    forall i: nat | i < j
      ensures !HandedOut(ms[..i], ms[i], quorum)
    {
      NoneHandedOut(ms, i, quorum);
    }
    assert !Completing(ms, j, quorum);
  }

  lemma CompletingNow(ms: seq<Learn>, m: Learn, quorum: nat)
    requires forall k: nat :: !Completing(ms, k, quorum)
    ensures Completing(ms + [m], |ms|, quorum) <==> HandedOut(ms, m, quorum)
    ensures forall k: nat :: Completing(ms + [m], k, quorum) ==> k == |ms|
  {
    var all := ms + [m];
    assert all[..|ms|] == ms;
    forall j: nat | j < |ms|
      ensures !HandedOut(all[..j], all[j], quorum)
    {
      NoneHandedOut(ms, j, quorum);
      assert all[..j] == ms[..j];
    }
  }

  /** A slot that is learned stays as it is, whatever learns come. */
  lemma LearnedFollows(slot: L.LearnerSlot, i: SlotID, ms: seq<Learn>, m: Learn, n: nat, quorum: nat)
    requires Follows(slot, i, ms, n, quorum) && slot.learned
    ensures Follows(slot, i, ms + [m], n, quorum)
  {
    var k: nat :| Completing(ms, k, quorum) && slot.learnedVal == ms[k].val;
    CompletingStays(ms, m, k, quorum);
    assert (ms + [m])[k] == ms[k];
  }

  /** A learn that hands out nothing leaves the slot counting. */
  lemma CountingFollows(slot: L.LearnerSlot, i: SlotID, ms: seq<Learn>, m: Learn, n: nat, quorum: nat)
    requires forall k: nat :: !Completing(ms, k, quorum)
    requires !HandedOut(ms, m, quorum) && Tally(slot, i, ms + [m], n)
    ensures Follows(slot, i, ms + [m], n, quorum)
  {
    CompletingNow(ms, m, quorum);
  }

  lemma HandedOutFollows(slot: L.LearnerSlot, i: SlotID, ms: seq<Learn>, m: Learn, n: nat, quorum: nat)
    requires forall k: nat :: !Completing(ms, k, quorum)
    requires HandedOut(ms, m, quorum) && slot.id == i && slot.learned && slot.learnedVal == m.val
    ensures Follows(slot, i, ms + [m], n, quorum)
  {
    CompletingNow(ms, m, quorum);
    assert Completing(ms + [m], |ms|, quorum) && (ms + [m])[|ms|] == m;
  }

  /** One learn, handled by a processor. */
  lemma LearnFollows(p: Processor, ms: seq<Learn>, m: Learn)
    requires TokenRing.InGroup(p, m) && Follows(L.SlotAt(p.slots, m.slot), m.slot, ms, p.nrOfNodes, p.quorum)
    ensures LearnStep(p, m).Ok?
    ensures var q := LearnStep(p, m).value.0;
            Follows(L.SlotAt(q.slots, m.slot), m.slot, ms + [m], p.nrOfNodes, p.quorum)
  {
    var slot, n, quorum, i := L.SlotAt(p.slots, m.slot), p.nrOfNodes, p.quorum, m.slot;
    if slot.learned {
      LearnedFollows(slot, i, ms, m, n, quorum);
    } else if Less(m.rnd, slot.rnd) {
      TallyLower(slot, ms, m, n, quorum);
      CountingFollows(slot, i, ms, m, n, quorum);
    } else {
      NewLearnFollows(p, ms, m);
    }
  }

  /** The slot once a learn is counted, and learned if that reaches the quorum. */
  function Counted(slot: L.LearnerSlot, m: Learn, n: nat, quorum: nat): L.LearnerSlot
    requires 0 <= m.id.paxosID < |L.InRound(slot, m.rnd, n).learns|
  {
    var counted := L.Count(L.InRound(slot, m.rnd, n), m);
    if counted.votes < quorum then counted else counted.(learned := true, learnedVal := m.val)
  }

  lemma CountedFollows(slot: L.LearnerSlot, ms: seq<Learn>, m: Learn, n: nat, quorum: nat)
    requires Follows(slot, m.slot, ms, n, quorum) && !slot.learned && !Less(m.rnd, slot.rnd)
    requires 0 <= m.id.paxosID < n && Less(ZERO_ROUND, m.rnd)
    requires slot.rnd == m.rnd ==> slot.learns[m.id.paxosID].None?
    ensures m.id.paxosID < |L.InRound(slot, m.rnd, n).learns|
    ensures Follows(Counted(slot, m, n, quorum), m.slot, ms + [m], n, quorum)
  {
    if slot.rnd == m.rnd {
      TallyCounted(slot, ms, m, n, quorum);
    } else {
      TallyHigher(slot, ms, m, n, quorum);
    }
    if HandedOut(ms, m, quorum) {
      HandedOutFollows(Counted(slot, m, n, quorum), m.slot, ms, m, n, quorum);
    } else {
      CountingFollows(Counted(slot, m, n, quorum), m.slot, ms, m, n, quorum);
    }
  }

  lemma NewLearnFollows(p: Processor, ms: seq<Learn>, m: Learn)
    requires TokenRing.InGroup(p, m) && Follows(L.SlotAt(p.slots, m.slot), m.slot, ms, p.nrOfNodes, p.quorum)
    requires !L.SlotAt(p.slots, m.slot).learned && !Less(m.rnd, L.SlotAt(p.slots, m.slot).rnd)
    ensures LearnStep(p, m).Ok?
    ensures var q := LearnStep(p, m).value.0;
            Follows(L.SlotAt(q.slots, m.slot), m.slot, ms + [m], p.nrOfNodes, p.quorum)
  {
    var slot := L.SlotAt(p.slots, m.slot);
    if slot.rnd == m.rnd && slot.learns[m.id.paxosID].Some? {
      TallyRepeated(slot, ms, m, p.nrOfNodes, p.quorum);
      CountingFollows(slot, m.slot, ms, m, p.nrOfNodes, p.quorum);
    } else {
      CountedFollows(slot, ms, m, p.nrOfNodes, p.quorum);
      StepCounts(p, m);
    }
  }

  /** The processor's step counts a new learn as said. */
  lemma StepCounts(p: Processor, m: Learn)
    requires !L.SlotAt(p.slots, m.slot).learned && !Less(m.rnd, L.SlotAt(p.slots, m.slot).rnd)
    requires var current := L.InRound(L.SlotAt(p.slots, m.slot), m.rnd, p.nrOfNodes);
             0 <= m.id.paxosID < |current.learns| && current.learns[m.id.paxosID].None?
    ensures LearnStep(p, m).Ok?
    ensures L.SlotAt(LearnStep(p, m).value.0.slots, m.slot) ==
              Counted(L.SlotAt(p.slots, m.slot), m, p.nrOfNodes, p.quorum)
  {
  }

  // ----- Runs with their actions

  ghost predicate ActionOk(n: nat, p: nat, r: Ring, act: Action)
    requires n > 0
  {
    && (act.FirstLearn? ==> act.slot % n == p)
    && (act.LearnAct? ==> act.i < |r.procs| && TokenRing.InGroup(r.procs[act.i], act.learn))
  }

  /** A run of the ring, with the actions that make it; all learns come from the group. */
  ghost predicate Traced(n: nat, p: nat, tr: seq<Ring>, acts: seq<Action>) {
    && p < n && |tr| == |acts| + 1 && Init(n, tr[0])
    && forall k: nat :: k < |acts| ==> Next(tr[k], tr[k + 1], acts[k]) && ActionOk(n, p, tr[k], acts[k])
  }

  /** The learns for one slot, in the order in which they are handled. */
  function Heard(acts: seq<Action>, s: SlotID): seq<Learn>
    decreases |acts|
  {
    if acts == [] then []
    else
      var act := acts[|acts| - 1];
      Heard(acts[..|acts| - 1], s) + if act.LearnAct? && act.learn.slot == s then [act.learn] else []
  }

  lemma TracedIsRun(n: nat, p: nat, tr: seq<Ring>, acts: seq<Action>)
    requires Traced(n, p, tr, acts)
    ensures Run(n, p, tr)
  {
    forall k | 0 <= k < |tr| - 1
      ensures StepBy(n, p, tr[k], tr[k + 1])
    {
      assert Next(tr[k], tr[k + 1], acts[k]) && ActionOk(n, p, tr[k], acts[k]);
    }
  }

  /** The slot of its processor is as its learns say. */
  ghost predicate SlotFollows(n: nat, r: Ring, s: SlotID, ms: seq<Learn>)
    requires n > 0
  {
    && |r.procs| == |r.tokens| == n && s % n < n
    && Follows(L.SlotAt(r.procs[s % n].slots, s), s, ms, r.procs[s % n].nrOfNodes, r.procs[s % n].quorum)
  }

  lemma TokenKeepsSlot(p: Processor, s: SlotID)
    ensures var q := TokenStep(p).0;
            L.SlotAt(q.slots, s) == L.SlotAt(p.slots, s) && q.nrOfNodes == p.nrOfNodes && q.quorum == p.quorum
  {
  }

  lemma LearnKeepsOthers(p: Processor, learn: Learn, s: SlotID)
    ensures LearnStep(p, learn).Ok? ==>
              var q := LearnStep(p, learn).value.0;
              && q.nrOfNodes == p.nrOfNodes && q.quorum == p.quorum
              && (s != learn.slot ==> L.SlotAt(q.slots, s) == L.SlotAt(p.slots, s))
  {
  }

  lemma NextFollows(n: nat, p: nat, r: Ring, r': Ring, act: Action, s: SlotID, ms: seq<Learn>)
    requires n > 0 && SlotFollows(n, r, s, ms) && Next(r, r', act) && ActionOk(n, p, r, act)
    ensures SlotFollows(n, r', s, ms + if act.LearnAct? && act.learn.slot == s then [act.learn] else [])
  {
    var i := s % n;
    match act
    case FirstLearn(_) => assert ms + [] == ms;
    case TokenAct(j) =>
      assert ms + [] == ms;
      TokenKeepsSlot(r.procs[j], s);
    case LearnAct(j, learn) =>
      if learn.slot == s {
        LearnFollows(r.procs[i], ms, learn);
        LearnKeepsOthers(r.procs[i], learn, s);
      } else {
        assert ms + [] == ms;
        LearnKeepsOthers(r.procs[j], learn, s);
      }
  }

  /**
   * In every run, whatever learns of a slot came, in whatever rounds, order and number: its
   * processor has learned it if and only if some learn made the distinct senders of the
   * highest round so far a quorum, and then with the value of the first such learn.
   */
  lemma {:induction false} RingLearnsExactlyOnQuorum(n: nat, p: nat, tr: seq<Ring>, acts: seq<Action>, s: SlotID)
    requires Traced(n, p, tr, acts)
    ensures SlotFollows(n, tr[|acts|], s, Heard(acts, s))
    decreases |acts|
  {
    if acts == [] {
      NothingHeard(n, tr[0], s);
    } else {
      var k := |acts| - 1;
      TracedBefore(n, p, tr, acts);
      RingLearnsExactlyOnQuorum(n, p, tr[..k + 1], acts[..k], s);
      NextFollows(n, p, tr[k], tr[k + 1], acts[k], s, Heard(acts[..k], s));
    }
  }

  lemma TracedBefore(n: nat, p: nat, tr: seq<Ring>, acts: seq<Action>)
    requires Traced(n, p, tr, acts) && acts != []
    ensures var k := |acts| - 1;
            && Traced(n, p, tr[..k + 1], acts[..k]) && tr[..k + 1][k] == tr[k]
            && Next(tr[k], tr[k + 1], acts[k]) && ActionOk(n, p, tr[k], acts[k])
  {
    var k := |acts| - 1;
    forall j: nat | j < k
      ensures Next(tr[..k + 1][j], tr[..k + 1][j + 1], acts[..k][j]) && ActionOk(n, p, tr[..k + 1][j], acts[..k][j])
    {
      assert Next(tr[j], tr[j + 1], acts[j]) && ActionOk(n, p, tr[j], acts[j]);
    }
  }

  lemma NothingHeard(n: nat, r: Ring, s: SlotID)
    requires n > 0 && Init(n, r)
    ensures SlotFollows(n, r, s, [])
  {
    var i := s % n;
    assert L.SlotAt(r.procs[i].slots, s) == L.FreshSlot(s);
    assert LearnSenders([], ZERO_ROUND) == {};
  }

  // ----- Deliveries

  /** A completing learn comes with a quorum of distinct senders in its round. */
  lemma CompletingHasQuorum(ms: seq<Learn>, k: nat, quorum: nat)
    requires Completing(ms, k, quorum)
    ensures |LearnSenders(ms[..k + 1], ms[k].rnd)| >= quorum
  {
    assert ms[..k] + [ms[k]] == ms[..k + 1];
  }

  lemma OwnerOfTurn(n: nat, p: nat, k: nat)
    requires p < n && SlotOfTurn(n, p, k) >= 0
    ensures SlotOfTurn(n, p, k) % n == Turn(n, p, k)
  {
    var x := SlotOfTurn(n, p, k);
    Arithmetic.ModStep(x, n);
    assert First(n, p) + k == x || First(n, p) + k == x + n;
  }

  /**
   * Whatever the ring delivers was voted for by a quorum: (s, v) is delivered only if among
   * the learns of s that were handled there is one with value v that made the distinct
   * senders of its round a quorum.
   */
  lemma DeliveriesHaveQuorum(n: nat, p: nat, tr: seq<Ring>, acts: seq<Action>, d: nat)
    requires Traced(n, p, tr, acts) && d < |tr[|acts|].delivered|
    ensures |tr[|acts|].procs| == n
    ensures var (s, v) := tr[|acts|].delivered[d];
            ByQuorum(Heard(acts, s), v, tr[|acts|].procs[s % n].quorum)
  {
    var (s, v) := tr[|acts|].delivered[d];
    TracedIsRun(n, p, tr, acts);
    DeliveredIsLearned(n, p, tr, |acts|, d);
    RingLearnsExactlyOnQuorum(n, p, tr, acts, s);
    var proc := tr[|acts|].procs[s % n];
    LearnedByQuorum(L.SlotAt(proc.slots, s), s, Heard(acts, s), proc.nrOfNodes, proc.quorum);
  }

  /** One of the learns, with value v, made the distinct senders of its round a quorum. */
  ghost predicate ByQuorum(ms: seq<Learn>, v: Value, quorum: nat) {
    exists k: nat :: Completing(ms, k, quorum) && ms[k].val == v && |LearnSenders(ms[..k + 1], ms[k].rnd)| >= quorum
  }

  lemma LearnedByQuorum(slot: L.LearnerSlot, i: SlotID, ms: seq<Learn>, n: nat, quorum: nat)
    requires Follows(slot, i, ms, n, quorum) && slot.learned
    ensures ByQuorum(ms, slot.learnedVal, quorum)
  {
    var k: nat :| Completing(ms, k, quorum) && slot.learnedVal == ms[k].val;
    CompletingHasQuorum(ms, k, quorum);
  }

  lemma DeliveredIsLearned(n: nat, p: nat, tr: seq<Ring>, k: nat, d: nat)
    requires Run(n, p, tr) && k < |tr| && d < |tr[k].delivered|
    ensures |tr[k].procs| == n
    ensures var (s, v) := tr[k].delivered[d];
            var slot := L.SlotAt(tr[k].procs[s % n].slots, s);
            slot.learned && slot.learnedVal == v
  {
    RunInv(n, p, tr, k);
    assert DeliveredOk(n, p, tr[k], d);
    OwnerOfTurn(n, p, d);
  }

  /** The positions whose replicas have sent a learn of round r with value v. */
  function SendersOf(ms: seq<Learn>, r: Round, v: Value): set<int> {
    set m | m in ms && m.rnd == r && m.val == v :: m.id.paxosID as int
  }

  /** If all learns of one slot and round carry one value, a quorum has voted for the delivered value. */
  lemma DeliveredByQuorumOfVotes(n: nat, p: nat, tr: seq<Ring>, acts: seq<Action>, d: nat)
    requires Traced(n, p, tr, acts) && d < |tr[|acts|].delivered|
    requires var ms := Heard(acts, tr[|acts|].delivered[d].0);
             forall a, b :: a in ms && b in ms && a.rnd == b.rnd ==> a.val == b.val
    ensures |tr[|acts|].procs| == n
    ensures var (s, v) := tr[|acts|].delivered[d];
            exists r: Round :: |SendersOf(Heard(acts, s), r, v)| >= tr[|acts|].procs[s % n].quorum
  {
    DeliveriesHaveQuorum(n, p, tr, acts, d);
    var (s, v) := tr[|acts|].delivered[d];
    var ms, quorum := Heard(acts, s), tr[|acts|].procs[s % n].quorum;
    var k: nat :| Completing(ms, k, quorum) && ms[k].val == v && |LearnSenders(ms[..k + 1], ms[k].rnd)| >= quorum;
    forall x | x in LearnSenders(ms[..k + 1], ms[k].rnd)
      ensures x in SendersOf(ms, ms[k].rnd, v)
    {
      var m :| m in ms[..k + 1] && m.rnd == ms[k].rnd && m.id.paxosID as int == x;
      assert m in ms && ms[k] in ms;
    }
    Sets.SubsetSize(LearnSenders(ms[..k + 1], ms[k].rnd), SendersOf(ms, ms[k].rnd, v));
  }
}
