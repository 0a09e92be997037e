/**
 * What the handlers achieve when messages do arrive: values are learned and phase one
 * completes exactly on quorums, and sending and resending leave nothing out.
 */
module Progress {
  import opened Wrappers
  import opened Group
  import opened Paxos
  import A = Acceptors
  import P = Proposers
  import L = Learners
  import PF = ProposerFacts

  // ----- Learning

  /** The positions whose replicas have sent a learn of round r. */
  function LearnSenders(ms: seq<Learn>, r: Round): set<int> {
    set m | m in ms && m.rnd == r :: m.id.paxosID as int
  }

  /** Learns for one slot that a learner can index by position. */
  ghost predicate LearnsFor(ms: seq<Learn>, slot: SlotID, nrOfNodes: nat) {
    forall m :: m in ms ==> m.slot == slot && 0 <= m.id.paxosID < nrOfNodes && Less(ZERO_ROUND, m.rnd)
  }

  /** The slot after these learns, none of which has been handed out. */
  function Voted(st: L.State, ms: seq<Learn>): Outcome<L.State> {
    if ms == [] then Ok(st)
    else
      match Voted(st, ms[..|ms| - 1])
      case Panic => Panic
      case Ok(t) =>
        match L.HandleLrn(t, ms[|ms| - 1])
        case Panic => Panic
        case Ok((u, _)) => Ok(u)
  }

  /** The slot's counters are those of the highest round among the learns. */
  ghost predicate Tally(slot: L.LearnerSlot, i: SlotID, ms: seq<Learn>, nrOfNodes: nat) {
    && slot.id == i && !slot.learned
    && (forall m :: m in ms ==> AtMost(m.rnd, slot.rnd))
    && slot.votes == |LearnSenders(ms, slot.rnd)|
    && if ms == [] then slot.rnd == ZERO_ROUND
       else
         && |slot.learns| == nrOfNodes
         && (exists m :: m in ms && m.rnd == slot.rnd)
         && forall p: nat :: p < nrOfNodes ==> (slot.learns[p].Some? <==> p in LearnSenders(ms, slot.rnd))
  }

  lemma SendersNext(ms: seq<Learn>, m: Learn, r: Round)
    ensures LearnSenders(ms + [m], r) == LearnSenders(ms, r) + if m.rnd == r then {m.id.paxosID as int} else {}
  {
  }

  lemma NoSendersAbove(ms: seq<Learn>, top: Round, r: Round)
    requires Less(top, r) && forall m :: m in ms ==> AtMost(m.rnd, top)
    ensures LearnSenders(ms, r) == {}
  {
  }

  /** The learn is of the highest round, the first of its sender there, and completes a quorum of distinct senders. */
  ghost predicate HandedOut(ms: seq<Learn>, m: Learn, quorum: nat) {
    && (forall x :: x in ms ==> AtMost(x.rnd, m.rnd))
    && m.id.paxosID as int !in LearnSenders(ms, m.rnd)
    && |LearnSenders(ms + [m], m.rnd)| >= quorum
  }

  lemma TallyLower(slot: L.LearnerSlot, ms: seq<Learn>, m: Learn, n: nat, quorum: nat)
    requires Tally(slot, m.slot, ms, n) && Less(m.rnd, slot.rnd) && Less(ZERO_ROUND, m.rnd)
    ensures Tally(slot, m.slot, ms + [m], n) && !HandedOut(ms, m, quorum)
  {
    SendersNext(ms, m, slot.rnd);
    var x :| x in ms && x.rnd == slot.rnd;
    assert x in ms + [m];
  }

  /** The first learn of its round: the count starts again. */
  lemma TallyHigher(slot: L.LearnerSlot, ms: seq<Learn>, m: Learn, n: nat, quorum: nat)
    requires Tally(slot, m.slot, ms, n) && Less(slot.rnd, m.rnd) && 0 <= m.id.paxosID < n
    ensures var counted := L.Count(L.InRound(slot, m.rnd, n), m);
            Tally(counted, m.slot, ms + [m], n) && (counted.votes >= quorum <==> HandedOut(ms, m, quorum))
  {
    SendersNext(ms, m, m.rnd);
    NoSendersAbove(ms, slot.rnd, m.rnd);
    assert m in ms + [m];
    assert |{m.id.paxosID as int}| == 1;
  }

  lemma TallyRepeated(slot: L.LearnerSlot, ms: seq<Learn>, m: Learn, n: nat, quorum: nat)
    requires Tally(slot, m.slot, ms, n) && m.rnd == slot.rnd && ms != [] && 0 <= m.id.paxosID < n
    requires slot.learns[m.id.paxosID].Some?
    ensures Tally(slot, m.slot, ms + [m], n) && !HandedOut(ms, m, quorum)
  {
    SendersNext(ms, m, slot.rnd);
    assert LearnSenders(ms + [m], slot.rnd) == LearnSenders(ms, slot.rnd);
    assert m in ms + [m];
  }

  lemma TallyCounted(slot: L.LearnerSlot, ms: seq<Learn>, m: Learn, n: nat, quorum: nat)
    requires Tally(slot, m.slot, ms, n) && m.rnd == slot.rnd && ms != [] && 0 <= m.id.paxosID < n
    requires slot.learns[m.id.paxosID].None?
    ensures Tally(L.Count(slot, m), m.slot, ms + [m], n)
    ensures L.Count(slot, m).votes >= quorum <==> HandedOut(ms, m, quorum)
  {
    SendersNext(ms, m, slot.rnd);
    assert m in ms + [m];
  }

  lemma TallyNext(st: L.State, ms: seq<Learn>, m: Learn)
    requires 0 <= m.id.paxosID < st.nrOfNodes && Less(ZERO_ROUND, m.rnd)
    requires Tally(L.SlotAt(st.slots, m.slot), m.slot, ms, st.nrOfNodes)
    ensures L.HandleLrn(st, m).Ok?
    ensures var (t, learned) := L.HandleLrn(st, m).value;
            && t.nrOfNodes == st.nrOfNodes && t.quorum == st.quorum
            && Tally(L.SlotAt(t.slots, m.slot), m.slot, ms + [m], st.nrOfNodes)
            && learned == if HandedOut(ms, m, st.quorum) then Some((m.val, m.slot)) else None
  {
    var slot, n := L.SlotAt(st.slots, m.slot), st.nrOfNodes;
    if Less(m.rnd, slot.rnd) {
      TallyLower(slot, ms, m, n, st.quorum);
    } else if Less(slot.rnd, m.rnd) {
      TallyHigher(slot, ms, m, n, st.quorum);
    } else if slot.learns[m.id.paxosID].Some? {
      TallyRepeated(slot, ms, m, n, st.quorum);
    } else {
      TallyCounted(slot, ms, m, n, st.quorum);
    }
  }

  ghost predicate VotedOk(st: L.State, slot: SlotID, ms: seq<Learn>) {
    && Voted(st, ms).Ok?
    && Voted(st, ms).value.nrOfNodes == st.nrOfNodes
    && Voted(st, ms).value.quorum == st.quorum
    && Tally(L.SlotAt(Voted(st, ms).value.slots, slot), slot, ms, st.nrOfNodes)
  }

  lemma VotedNext(st: L.State, ms: seq<Learn>, m: Learn)
    requires VotedOk(st, m.slot, ms) && 0 <= m.id.paxosID < st.nrOfNodes && Less(ZERO_ROUND, m.rnd)
    ensures VotedOk(st, m.slot, ms + [m])
  {
    TallyNext(Voted(st, ms).value, ms, m);
    assert (ms + [m])[..|ms|] == ms;
  }

  lemma {:induction false} VotedTally(st: L.State, slot: SlotID, ms: seq<Learn>)
    requires L.SlotAt(st.slots, slot) == L.FreshSlot(slot) && LearnsFor(ms, slot, st.nrOfNodes)
    ensures VotedOk(st, slot, ms)
  {
    if ms == [] {
      assert LearnSenders(ms, ZERO_ROUND) == {};
    } else {
      var front, m := ms[..|ms| - 1], ms[|ms| - 1];
      VotedTally(st, slot, front);
      assert m in ms;
      VotedNext(st, front, m);
      assert front + [m] == ms;
    }
  }

  /**
   * Whatever learns for a slot came before, in whatever rounds and order and how often:
   * the next one hands out its value if and only if it is of the highest round so far
   * and makes the distinct replicas that have voted in this round a quorum.
   */
  lemma LearnedExactlyOnQuorum(st: L.State, ms: seq<Learn>, m: Learn)
    requires L.SlotAt(st.slots, m.slot) == L.FreshSlot(m.slot) && LearnsFor(ms + [m], m.slot, st.nrOfNodes)
    ensures Voted(st, ms).Ok? && L.HandleLrn(Voted(st, ms).value, m).Ok?
    ensures L.HandleLrn(Voted(st, ms).value, m).value.1 ==
              if HandedOut(ms, m, st.quorum) then Some((m.val, m.slot)) else None
  {
    assert forall x :: x in ms ==> x in ms + [m];
    VotedTally(st, m.slot, ms);
    TallyNext(Voted(st, ms).value, ms, m);
  }

  // ----- Phase one

  function PromiseSenders(ms: seq<Promise>, r: Round): set<int> {
    set m | m in ms && m.rnd == r :: m.id.paxosID as int
  }

  lemma PromiseSendersNext(ms: seq<Promise>, m: Promise, r: Round)
    ensures PromiseSenders(ms + [m], r) == PromiseSenders(ms, r) + if m.rnd == r then {m.id.paxosID as int} else {}
  {
  }

  /** Promises that a proposer can index by position. */
  ghost predicate InGroup(ms: seq<Promise>, nrOfNodes: nat) {
    forall m :: m in ms ==> 0 <= m.id.paxosID < nrOfNodes
  }

  /** The proposer after these promises, while phase one is not complete. */
  function Promised(st: P.State, ms: seq<Promise>): Outcome<P.State> {
    if ms == [] then Ok(st)
    else
      match Promised(st, ms[..|ms| - 1])
      case Panic => Panic
      case Ok(t) =>
        match P.HandleProm(t, ms[|ms| - 1])
        case Panic => Panic
        case Ok((u, _)) => Ok(u)
  }

  /** Exactly the senders of promises for the current round are on record. */
  ghost predicate OnRecord(st: P.State, t: P.State, ms: seq<Promise>) {
    && t == st.(phaseOnePromises := t.phaseOnePromises, phaseOneCount := t.phaseOneCount)
    && |t.phaseOnePromises| == st.nrOfNodes
    && t.phaseOneCount == |PromiseSenders(ms, st.crnd)|
    && (forall p: nat :: p < st.nrOfNodes ==>
          (t.phaseOnePromises[p].Some? <==> p in PromiseSenders(ms, st.crnd)))
  }

  /** The first promise of its sender for the current round, and with it a quorum of distinct senders. */
  ghost predicate Completes(st: P.State, ms: seq<Promise>, m: Promise) {
    && m.rnd == st.crnd
    && m.id.paxosID as int !in PromiseSenders(ms, st.crnd)
    && |PromiseSenders(ms + [m], st.crnd)| >= st.quorum
  }

  lemma RecordNext(st: P.State, t: P.State, ms: seq<Promise>, m: Promise)
    requires !st.phaseOneDone && OnRecord(st, t, ms) && 0 <= m.id.paxosID < st.nrOfNodes
    ensures P.HandleProm(t, m).Ok?
    ensures OnRecord(st, P.HandleProm(t, m).value.0, ms + [m])
    ensures P.HandleProm(t, m).value.1 <==> Completes(st, ms, m)
  {
    PromiseSendersNext(ms, m, st.crnd);
  }

  lemma {:induction false} PromisedRecord(st: P.State, ms: seq<Promise>)
    requires !st.phaseOneDone && st.phaseOneCount == 0 && st.phaseOnePromises == P.NoPromises(st.nrOfNodes)
    requires InGroup(ms, st.nrOfNodes)
    ensures Promised(st, ms).Ok? && OnRecord(st, Promised(st, ms).value, ms)
  {
    if ms == [] {
      assert PromiseSenders(ms, st.crnd) == {};
    } else {
      var front, m := ms[..|ms| - 1], ms[|ms| - 1];
      PromisedRecord(st, front);
      assert m in ms && front + [m] == ms;
      RecordNext(st, Promised(st, front).value, front, m);
    }
  }

  /**
   * Whatever promises came since phase one started: the next one completes it if and
   * only if it makes the distinct replicas that have promised this round a quorum.
   */
  lemma PhaseOneExactlyOnQuorum(st: P.State, ms: seq<Promise>, m: Promise)
    requires !st.phaseOneDone && st.phaseOneCount == 0 && st.phaseOnePromises == P.NoPromises(st.nrOfNodes)
    requires InGroup(ms + [m], st.nrOfNodes)
    ensures Promised(st, ms).Ok? && P.HandleProm(Promised(st, ms).value, m).Ok?
    ensures P.HandleProm(Promised(st, ms).value, m).value.1 <==> Completes(st, ms, m)
  {
    assert forall x :: x in ms ==> x in ms + [m];
    assert m in ms + [m];
    PromisedRecord(st, ms);
    RecordNext(st, Promised(st, ms).value, ms, m);
  }

  // ----- Phase two

  /** The values of the accepts for slots that had no proposal before, in slot order. */
  function Fresh(st: P.State, i: SlotID, out: seq<Message>): seq<Value>
    decreases |out|
  {
    if out == [] then []
    else
      (if out[0].AcceptMsg? && P.ProposalAt(st, i).None? then [out[0].accept.val] else []) + Fresh(st, i + 1, out[1..])
  }

  lemma {:induction false} FreshSame(st: P.State, u: P.State, i: SlotID, out: seq<Message>)
    requires forall j: SlotID :: j >= i ==> P.ProposalAt(u, j) == P.ProposalAt(st, j)
    ensures Fresh(u, i, out) == Fresh(st, i, out)
    decreases |out|
  {
    if out != [] {
      FreshSame(st, u, i + 1, out[1..]);
    }
  }

  /** Nothing more can be sent, and the queue has lost exactly the values sent in new proposals. */
  ghost predicate SentAll(st: P.State, r: P.State, out: seq<Message>) {
    && (r.nextSlot > r.adu + r.alpha || (r.reqQueue == [] && P.ProposalAt(r, r.nextSlot).None?))
    && st.reqQueue == Fresh(st, st.nextSlot, out) + r.reqQueue
  }

  lemma SentAllStep(st: P.State, u: P.State, a: Accept, r: P.State, rest: seq<Message>)
    requires SentAll(u, r, rest) && u.nextSlot == st.nextSlot + 1
    requires forall j: SlotID :: j != st.nextSlot ==> P.ProposalAt(u, j) == P.ProposalAt(st, j)
    requires st.reqQueue == (if P.ProposalAt(st, st.nextSlot).None? then [a.val] else []) + u.reqQueue
    ensures SentAll(st, r, [AcceptMsg(a)] + rest)
  {
    FreshSame(st, u, st.nextSlot + 1, rest);
    assert ([AcceptMsg(a)] + rest)[1..] == rest;
  }

  /**
   * Sending stops only at the end of the window or for want of a value, and takes
   * client values from the queue in order, each into one slot.
   */
  lemma {:induction false} SendsAllItCan(st: P.State)
    requires PF.Keyed(st)
    ensures SentAll(st, P.SendAccepts(st).0, P.SendAccepts(st).1)
    decreases st.adu + st.alpha + 1 - st.nextSlot
  {
    var (u, accept) := P.SendOne(st);
    PF.SendOneEffect(st);
    if accept.Some? {
      SendsAllItCan(u);
      OneTaken(st);
      SentAllStep(st, u, accept.value, P.SendAccepts(u).0, P.SendAccepts(u).1);
    } else {
      NoneTaken(st);
    }
  }

  /** An accept for a slot without a proposal takes the head of the queue, another takes none. */
  lemma OneTaken(st: P.State)
    requires P.SendOne(st).1.Some?
    ensures var (u, accept) := P.SendOne(st);
            st.reqQueue == (if P.ProposalAt(st, st.nextSlot).None? then [accept.value.val] else []) + u.reqQueue
  {
  }

  lemma NoneTaken(st: P.State)
    requires P.SendOne(st).1.None?
    ensures var u := P.SendOne(st).0;
            && u.reqQueue == st.reqQueue && u.nextSlot == st.nextSlot && u.adu == st.adu && u.alpha == st.alpha
            && (P.InAlphaRange(st.nextSlot, st.adu, st.alpha) ==> u.reqQueue == [] && P.ProposalAt(u, u.nextSlot).None?)
  {
  }

  // ----- Resending

  /** The accepts kept for slots i..hi-1, in slot order. */
  function Kept(st: P.State, i: SlotID, hi: SlotID): seq<Message>
    decreases hi - i
  {
    if hi <= i then []
    else (if P.ProposalAt(st, i).Some? then [AcceptMsg(P.ProposalAt(st, i).value)] else []) + Kept(st, i + 1, hi)
  }

  /** From slot i on every kept accept is for its own slot and has not been resent too often. */
  ghost predicate Resendable(st: P.State, i: SlotID) {
    forall j: SlotID :: i <= j < st.nextSlot && P.ProposalAt(st, j).Some? ==>
      P.ProposalAt(st, j).value.slot == j && P.SlotAt(st.slots, j).sentCount < P.RESENDS_BEFORE_RESTARTING_PHASE_ONE
  }

  lemma {:induction false} KeptSame(st: P.State, u: P.State, i: SlotID, hi: SlotID)
    requires forall j: SlotID :: i <= j < hi ==> P.ProposalAt(u, j) == P.ProposalAt(st, j)
    ensures Kept(u, i, hi) == Kept(st, i, hi)
    decreases hi - i
  {
    if i < hi {
      KeptSame(st, u, i + 1, hi);
    }
  }

  /** As long as no accept was resent too often, one resend tick repeats all of the window, and counts each. */
  lemma {:induction false} ResendsWholeWindow(st: P.State, i: SlotID)
    requires Resendable(st, i)
    ensures P.ResendFrom(st, i).1 == Kept(st, i, st.nextSlot)
    ensures forall j: SlotID ::
              P.SlotAt(P.ResendFrom(st, i).0.slots, j).sentCount == P.SlotAt(st.slots, j).sentCount +
                if i <= j < st.nextSlot && P.ProposalAt(st, j).Some? then 1 else 0
    decreases st.nextSlot - i
  {
    if i < st.nextSlot {
      var (u, out) := P.ResendSlot(st, i);
      OneResent(st, i);
      ResendsWholeWindow(u, i + 1);
      KeptSame(st, u, i + 1, st.nextSlot);
    }
  }

  lemma OneResent(st: P.State, i: SlotID)
    requires Resendable(st, i) && i < st.nextSlot
    ensures var (u, out) := P.ResendSlot(st, i);
            && u.nextSlot == st.nextSlot
            && out == (if P.ProposalAt(st, i).Some? then [AcceptMsg(P.ProposalAt(st, i).value)] else [])
            && (forall j: SlotID :: j != i ==> P.SlotAt(u.slots, j) == P.SlotAt(st.slots, j))
            && P.ProposalAt(u, i) == P.ProposalAt(st, i)
            && P.SlotAt(u.slots, i).sentCount ==
                 P.SlotAt(st.slots, i).sentCount + if P.ProposalAt(st, i).Some? then 1 else 0
  {
  }

  // ----- A quorum that answers

  /** Acceptors at distinct positions below n. */
  ghost predicate Distinct(accs: seq<A.State>, n: nat) {
    && (forall k: nat :: k < |accs| ==> 0 <= accs[k].id.paxosID < n)
    && (forall j: nat, k: nat :: j < k < |accs| ==> accs[j].id.paxosID != accs[k].id.paxosID)
  }

  /** The acceptor has taken part in no higher round and has not voted in this one. */
  ghost predicate WillVote(st: A.State, m: Accept) {
    && st.lowSlot <= m.slot && AtMost(st.rnd, m.rnd)
    && A.SlotAt(st.slots, m.slot).vrnd != m.rnd && A.SlotAt(st.slots, m.slot).id == m.slot
  }

  function Votes(accs: seq<A.State>, m: Accept): seq<Learn> {
    seq(|accs|, (k: nat) requires k < |accs| => Learn(accs[k].id, m.slot, m.rnd, m.val, []))
  }

  function Positions(accs: seq<A.State>): set<int> {
    set k: nat | k < |accs| :: accs[k].id.paxosID as int
  }

  lemma {:induction false} PositionsCount(accs: seq<A.State>, n: nat)
    requires Distinct(accs, n)
    ensures |Positions(accs)| == |accs|
  {
    if accs == [] {
      assert Positions(accs) == {};
    } else {
      var last := |accs| - 1;
      PositionsCount(accs[..last], n);
      assert Positions(accs) == Positions(accs[..last]) + {accs[last].id.paxosID as int};
      assert accs[last].id.paxosID as int !in Positions(accs[..last]);
    }
  }

  lemma VotesSenders(accs: seq<A.State>, m: Accept)
    ensures LearnSenders(Votes(accs, m), m.rnd) == Positions(accs)
  {
    forall k: nat | k < |accs|
      ensures accs[k].id.paxosID as int in LearnSenders(Votes(accs, m), m.rnd)
    {
      assert Votes(accs, m)[k] in Votes(accs, m);
    }
  }

  /** The last acceptor is the one that makes the positions a quorum. */
  lemma LastCompletes(accs: seq<A.State>, n: nat)
    requires Distinct(accs, n) && accs != []
    ensures |Positions(accs)| == |accs|
    ensures accs[|accs| - 1].id.paxosID as int !in Positions(accs[..|accs| - 1])
  {
    PositionsCount(accs, n);
  }

  lemma VoteGiven(st: A.State, m: Accept)
    requires WillVote(st, m)
    ensures A.AcceptStep(st, m).1 == Some(Learn(st.id, m.slot, m.rnd, m.val, []))
  {
  }

  /**
   * An accept that a quorum of acceptors answers makes a learner learn its value: the
   * answers, received one after the other, hand it out with the last one.
   */
  lemma AcceptIsLearned(accs: seq<A.State>, m: Accept, st: L.State)
    requires Distinct(accs, st.nrOfNodes) && |accs| == st.quorum > 0 && Less(ZERO_ROUND, m.rnd)
    requires forall k: nat :: k < |accs| ==> WillVote(accs[k], m)
    requires L.SlotAt(st.slots, m.slot) == L.FreshSlot(m.slot)
    ensures var learns := Votes(accs, m);
            var n := |accs| - 1;
            && (forall k: nat :: k < |accs| ==> A.AcceptStep(accs[k], m).1 == Some(learns[k]))
            && Voted(st, learns[..n]).Ok? && L.HandleLrn(Voted(st, learns[..n]).value, learns[n]).Ok?
            && L.HandleLrn(Voted(st, learns[..n]).value, learns[n]).value.1 == Some((m.val, m.slot))
  {
    var learns, n := Votes(accs, m), |accs| - 1;
    forall k: nat | k < |accs|
      ensures A.AcceptStep(accs[k], m).1 == Some(learns[k])
    {
      VoteGiven(accs[k], m);
    }
    VotesHandOut(accs, m, st);
    LearnedExactlyOnQuorum(st, learns[..n], learns[n]);
  }

  lemma VotesHandOut(accs: seq<A.State>, m: Accept, st: L.State)
    requires Distinct(accs, st.nrOfNodes) && |accs| == st.quorum > 0 && Less(ZERO_ROUND, m.rnd)
    ensures var learns := Votes(accs, m);
            var n := |accs| - 1;
            LearnsFor(learns[..n] + [learns[n]], m.slot, st.nrOfNodes) && HandedOut(learns[..n], learns[n], st.quorum)
  {
    var learns, n := Votes(accs, m), |accs| - 1;
    assert learns[..n] + [learns[n]] == learns && learns[..n] == Votes(accs[..n], m);
    LastCompletes(accs, st.nrOfNodes);
    VotesSenders(accs, m);
    VotesSenders(accs[..n], m);
  }

  function Answers(accs: seq<A.State>, m: Prepare): seq<Promise>
    requires forall k: nat :: k < |accs| ==> Less(accs[k].rnd, m.crnd)
  {
    seq(|accs|, (k: nat) requires k < |accs| => A.PrepareStep(accs[k], m).1.value)
  }

  lemma AnswersSenders(accs: seq<A.State>, m: Prepare)
    requires forall k: nat :: k < |accs| ==> Less(accs[k].rnd, m.crnd)
    ensures PromiseSenders(Answers(accs, m), m.crnd) == Positions(accs)
  {
    forall k: nat | k < |accs|
      ensures Answers(accs, m)[k].id == accs[k].id && Answers(accs, m)[k].rnd == m.crnd
      ensures accs[k].id.paxosID as int in PromiseSenders(Answers(accs, m), m.crnd)
    {
      var promise := A.PrepareStep(accs[k], m).1.value;
      assert promise.id == accs[k].id && promise.rnd == m.crnd;
      assert Answers(accs, m)[k] == promise && promise in Answers(accs, m);
    }
  }

  lemma AnswersComplete(accs: seq<A.State>, m: Prepare, st: P.State)
    requires Distinct(accs, st.nrOfNodes) && |accs| == st.quorum > 0 && m.crnd == st.crnd
    requires forall k: nat :: k < |accs| ==> Less(accs[k].rnd, m.crnd)
    ensures var promises := Answers(accs, m);
            var n := |accs| - 1;
            InGroup(promises[..n] + [promises[n]], st.nrOfNodes) && Completes(st, promises[..n], promises[n])
  {
    var promises, n := Answers(accs, m), |accs| - 1;
    assert promises[..n] + [promises[n]] == promises && promises[..n] == Answers(accs[..n], m);
    forall k: nat | k < |accs|
      ensures promises[k].id == accs[k].id && promises[k].rnd == m.crnd
    {
    }
    LastCompletes(accs, st.nrOfNodes);
    AnswersSenders(accs, m);
    AnswersSenders(accs[..n], m);
  }

  /** A prepare for a round higher than a quorum of acceptors have seen completes phase one with the last of their promises. */
  lemma PrepareCompletesPhaseOne(accs: seq<A.State>, m: Prepare, st: P.State)
    requires Distinct(accs, st.nrOfNodes) && |accs| == st.quorum > 0 && m.crnd == st.crnd
    requires forall k: nat :: k < |accs| ==> Less(accs[k].rnd, m.crnd)
    requires !st.phaseOneDone && st.phaseOneCount == 0 && st.phaseOnePromises == P.NoPromises(st.nrOfNodes)
    ensures var promises := Answers(accs, m);
            var n := |accs| - 1;
            && Promised(st, promises[..n]).Ok? && P.HandleProm(Promised(st, promises[..n]).value, promises[n]).Ok?
            && P.HandleProm(Promised(st, promises[..n]).value, promises[n]).value.1
  {
    var promises, n := Answers(accs, m), |accs| - 1;
    AnswersComplete(accs, m, st);
    PhaseOneExactlyOnQuorum(st, promises[..n], promises[n]);
  }
}
