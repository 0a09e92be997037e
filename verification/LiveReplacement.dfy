/**
 * Counting learns and promises with Live Replacement enabled
 * (handleLrnLr in multipaxos/learner.go, handlePromLr in multipaxos/proposer.go).
 *
 * While all epoch vectors equal the replica's own, votes are only counted (the
 * fast path); otherwise a valid quorum is searched for.
 */
module LiveReplacement {
  import opened Wrappers
  import opened Group
  import opened Paxos
  import opened Combinations
  import opened ValidQuorum
  import A = Acceptors
  import Sets

  // ----- Learns

  datatype LrSlot = LrSlot(
    id: SlotID,
    learned: bool,
    rnd: Round,
    learns: seq<Learn>,
    votes: nat,
    voted: set<ID>,
    checkVQ: bool)

  function FreshSlot(id: SlotID): LrSlot {
    LrSlot(id, false, ZERO_ROUND, [], 0, {}, false)
  }

  function LearnBallots(ms: seq<Learn>): (bs: seq<Ballot>)
    ensures |bs| == |ms| && forall k :: 0 <= k < |ms| ==> bs[k] == Ballot(ms[k].id, ms[k].epochVector)
  {
    seq(|ms|, k requires 0 <= k < |ms| => Ballot(ms[k].id, ms[k].epochVector))
  }

  predicate Counts(slot: LrSlot, msg: Learn) {
    !slot.learned && (Less(slot.rnd, msg.rnd) || (slot.rnd == msg.rnd && msg.id !in slot.voted))
  }

  /** The slot after a learn has been received by a replica whose epoch vector is `epochs`. */
  function Collect(slot: LrSlot, msg: Learn, epochs: seq<Epoch>): LrSlot {
    if slot.learned then slot
    else
      var checked := slot.(checkVQ := slot.checkVQ || msg.epochVector != epochs);
      var current := if Less(slot.rnd, msg.rnd)
                     then checked.(rnd := msg.rnd, learns := [], votes := 0, voted := {}) else checked;
      if !Counts(slot, msg) then current
      else current.(votes := current.votes + 1, voted := current.voted + {msg.id}, learns := current.learns + [msg])
  }

  /** The slot after some learns; vs[k] is the replica's epoch vector when it receives the k-th. */
  function CollectAll(slot: LrSlot, ms: seq<Learn>, vs: seq<seq<Epoch>>): LrSlot
    requires |vs| == |ms|
    decreases |ms|
  {
    var n := |ms| - 1;
    if ms == [] then slot else Collect(CollectAll(slot, ms[..n], vs[..n]), ms[n], vs[n])
  }

  /** The learn is counted, and with it the votes reach the quorum. */
  predicate Reaches(slot: LrSlot, msg: Learn, epochs: seq<Epoch>, quorum: nat) {
    Counts(slot, msg) && Collect(slot, msg, epochs).votes >= quorum
  }

  class LearnerLr {
    const epochs: seq<Epoch>
    const quorum: nat
    var slots: map<SlotID, LrSlot>

    constructor (epochs: seq<Epoch>, quorum: nat)
      ensures this.epochs == epochs && this.quorum == quorum && slots == map[]
    {
      this.epochs, this.quorum, slots := epochs, quorum, map[];
    }

    function SlotAt(i: SlotID): LrSlot
      reads this
    {
      if i in slots then slots[i] else FreshSlot(i)
    }

    /**
     * The value is learned on the fast path from a bare count, on the slow path from a valid
     * quorum. The slow path panics when it reads past the end of an epoch vector before it
     * has found a quorum, and when the quorum has no first member.
     */
    method HandleLrnLr(msg: Learn) returns (learned: Outcome<Option<(Value, SlotID)>>)
      modifies this
      ensures slots == old(slots)[msg.slot := Collect(old(SlotAt(msg.slot)), msg, epochs)]
      ensures var slot := Collect(old(SlotAt(msg.slot)), msg, epochs);
              learned.Panic? <==>
                && Reaches(old(SlotAt(msg.slot)), msg, epochs, quorum) && slot.checkVQ
                && (quorum == 0 || SearchPanics(LearnBallots(slot.learns), quorum))
      ensures var slot := Collect(old(SlotAt(msg.slot)), msg, epochs);
              learned.Ok? ==>
                (learned.value.Some? <==>
                   && Reaches(old(SlotAt(msg.slot)), msg, epochs, quorum)
                   && (slot.checkVQ ==> HasQuorum(LearnBallots(slot.learns), quorum)))
      ensures learned.Ok? && learned.value.Some? ==>
                var slot := Collect(old(SlotAt(msg.slot)), msg, epochs);
                && learned.value.value.1 == slot.id
                && (if !slot.checkVQ then learned.value.value.0 == msg.val
                    else exists vq: Indices :: |vq| > 0 && IsFirstQuorum(vq, LearnBallots(slot.learns), quorum)
                           && learned.value.value.0 == slot.learns[vq[0]].val)
    {
      if msg.slot !in slots {
        slots := slots[msg.slot := FreshSlot(msg.slot)];
      }
      var slot := slots[msg.slot];
      assert slots == old(slots)[msg.slot := slot];
      if slot.learned {
        return Ok(None);
      }
      if !slot.checkVQ {
        var same := EpochSlicesEqual(msg.epochVector, epochs);
        if !same {
          slot := slot.(checkVQ := true);
        }
      }
      slots := slots[msg.slot := slot];
      if Compare(slot.rnd, msg.rnd) == 1 {
        return Ok(None);
      }
      if Compare(slot.rnd, msg.rnd) == -1 {
        slot := slot.(rnd := msg.rnd, learns := [], votes := 0, voted := {});
      }
      if msg.id in slot.voted {
        return Ok(None);
      }
      slot := slot.(votes := slot.votes + 1, voted := slot.voted + {msg.id}, learns := slot.learns + [msg]);
      slots := slots[msg.slot := slot];
      assert slot == Collect(old(SlotAt(msg.slot)), msg, epochs);
      if slot.votes < quorum {
        return Ok(None);
      }
      if !slot.checkVQ {
        return Ok(Some((msg.val, slot.id)));
      }
      learned := ValidValue(slot);
    }

    /** The slow path: the value of the first message of the first valid quorum. */
    method ValidValue(slot: LrSlot) returns (learned: Outcome<Option<(Value, SlotID)>>)
      requires slot.learns != []
      ensures learned.Panic? <==> quorum == 0 || SearchPanics(LearnBallots(slot.learns), quorum)
      ensures learned.Ok? ==> (learned.value.Some? <==> HasQuorum(LearnBallots(slot.learns), quorum))
      ensures learned.Ok? && learned.value.Some? ==>
                && learned.value.value.1 == slot.id
                && exists vq: Indices :: |vq| > 0 && IsFirstQuorum(vq, LearnBallots(slot.learns), quorum)
                     && learned.value.value.0 == slot.learns[vq[0]].val
    {
      var bs := LearnBallots(slot.learns);
      var vq := ExtractValidQuorum(bs, quorum);
      if quorum == 0 {
        NoneIsQuorum(bs);
      }
      if vq.Panic? {
        return Panic;
      }
      if vq.value.None? {
        return Ok(None);
      }
      if |vq.value.value| == 0 {
        return Panic;
      }
      learned := Ok(Some((slot.learns[vq.value.value[0]].val, slot.id)));
    }
  }

  /** With a quorum of zero the search finds the empty choice. */
  lemma NoneIsQuorum(bs: seq<Ballot>)
    ensures HasQuorum(bs, 0)
  {
    assert QuorumSet({}, bs, 0);
  }

  // ----- The fast path refines the slow one

  /** The sender of the ballot knows its own epoch. */
  ghost predicate SelfKnown(b: Ballot) {
    0 <= b.id.paxosID < |b.epochVector| && b.epochVector[b.id.paxosID] == b.id.epoch
  }

  /** An acceptor whose epoch vector has its own epoch at its position gives answers that know their sender. */
  lemma AnswersKnowTheirSender(st: A.State, p: Prepare, m: Accept, epochs: seq<Epoch>)
    requires 0 <= st.id.paxosID < |epochs| && epochs[st.id.paxosID] == st.id.epoch
    ensures var promise := A.PrepareStepLr(st, p, epochs).1;
            promise.Some? ==> SelfKnown(Ballot(promise.value.id, promise.value.epochVector))
    ensures var learn := A.AcceptStepLr(st, m, epochs).1;
            learn.Some? ==> SelfKnown(Ballot(learn.value.id, learn.value.epochVector))
  {
  }

  /** All of as many messages as the quorum needs form one if and only if no two conflict. */
  lemma WholeQuorum(bs: seq<Ballot>, size: nat)
    requires |bs| == size
    ensures HasQuorum(bs, size) <==> ConflictFree(RunFrom(0, |bs|), bs)
  {
    if HasQuorum(bs, size) {
      var q :| QuorumSet(q, bs, size);
      SetGivesCombo(q, bs, size);
      OnlyRun(Sorted(q, 0, |bs|), size);
    }
    if ConflictFree(RunFrom(0, |bs|), bs) {
      PrefixQuorum(bs, size);
    }
  }

  lemma OnlyRun(s: Indices, n: nat)
    requires Increasing(s, 0, n) && |s| == n
    ensures s == RunFrom(0, n)
  {
    forall k: nat | k < n
      ensures s[k] == k
    {
      IncreasingLowerBound(s, 0, n, k);
      IncreasingUpperBound(s, 0, n, k);
    }
  }

  /** A choice of the first `size` of conflict-free messages is a quorum. */
  lemma PrefixQuorum(bs: seq<Ballot>, size: nat)
    requires ConflictFree(RunFrom(0, |bs|), bs) && size <= |bs|
    ensures IsQuorum(RunFrom(0, size), bs, size) && HasQuorum(bs, size)
  {
    var all, s := RunFrom(0, |bs|), RunFrom(0, size);
    forall j, k | 0 <= j < k < size
      ensures Compatible(bs[s[j]], bs[s[k]])
    {
      assert Compatible(bs[all[j]], bs[all[k]]);
    }
    ComboGivesSet(s, bs, size);
  }

  lemma ConflictFreePairs(bs: seq<Ballot>)
    ensures ConflictFree(RunFrom(0, |bs|), bs) <==> forall j: nat, k: nat :: j < k < |bs| ==> Compatible(bs[j], bs[k])
  {
    var all := RunFrom(0, |bs|);
    if ConflictFree(all, bs) {
      forall j: nat, k: nat | j < k < |bs|
        ensures Compatible(bs[j], bs[k])
      {
        assert Compatible(bs[all[j]], bs[all[k]]);
      }
    }
  }

  // ----- Epoch vectors that rise

  /** The vectors have one length, and no entry of a is above that of b. */
  predicate VectorAtMost(a: seq<Epoch>, b: seq<Epoch>) {
    |a| == |b| && forall p :: 0 <= p < |a| ==> a[p] <= b[p]
  }

  /** A replica's epoch vector over time: epochs only rise. */
  ghost predicate VectorsRise(vs: seq<seq<Epoch>>) {
    forall i: nat, j: nat :: i <= j < |vs| ==> VectorAtMost(vs[i], vs[j])
  }

  /** The vectors that the messages carry rise from one to the next. */
  ghost predicate BallotsRise(bs: seq<Ballot>) {
    && (forall k: nat :: k < |bs| ==> SelfKnown(bs[k]))
    && (forall j: nat, k: nat :: j < k < |bs| ==> VectorAtMost(bs[j].epochVector, bs[k].epochVector))
  }

  /** The sender of a has not been replaced when b's vector is taken, and b has another position. */
  predicate NotReplaced(a: Ballot, b: Ballot)
    requires 0 <= a.id.paxosID < |a.epochVector| == |b.epochVector|
  {
    a.id.paxosID != b.id.paxosID && b.epochVector[a.id.paxosID] == a.epochVector[a.id.paxosID]
  }

  /** Positions differ, and no sender of an earlier message was replaced by the time of a later one. */
  ghost predicate NoneReplaced(bs: seq<Ballot>)
    requires BallotsRise(bs)
  {
    forall j: nat, k: nat :: j < k < |bs| ==> NotReplaced(bs[j], bs[k])
  }

  /** Messages whose vectors rise are free of conflicts exactly if no sender was replaced meanwhile. */
  lemma RisingBallots(bs: seq<Ballot>)
    requires BallotsRise(bs)
    ensures ConflictFree(RunFrom(0, |bs|), bs) <==> NoneReplaced(bs)
  {
    ConflictFreePairs(bs);
    forall j: nat, k: nat | j < k < |bs|
      ensures Compatible(bs[j], bs[k]) <==> NotReplaced(bs[j], bs[k])
    {
      assert SelfKnown(bs[j]) && SelfKnown(bs[k]) && VectorAtMost(bs[j].epochVector, bs[k].epochVector);
    }
  }

  // ----- Learns

  ghost predicate Gathered(slot: LrSlot) {
    && slot.votes == |slot.learns|
    && (forall m :: m in slot.learns ==> m.id in slot.voted)
    && (forall j: nat, k: nat :: j < k < |slot.learns| ==> slot.learns[j].id != slot.learns[k].id)
  }

  lemma {:induction false} CollectAllGathers(id: SlotID, ms: seq<Learn>, vs: seq<seq<Epoch>>)
    requires |vs| == |ms|
    ensures Gathered(CollectAll(FreshSlot(id), ms, vs))
    ensures forall m :: m in CollectAll(FreshSlot(id), ms, vs).learns ==> m in ms
    decreases |ms|
  {
    if ms != [] {
      var n := |ms| - 1;
      CollectAllGathers(id, ms[..n], vs[..n]);
      assert forall x :: x in ms <==> x in ms[..n] || x == ms[n];
    }
  }

  /** The replicas that have sent a learn of round r. */
  function SendersIn(ms: seq<Learn>, r: Round): set<ID> {
    set m | m in ms && m.rnd == r :: m.id
  }

  /** r is the highest round of the learns, zero if there are none. */
  ghost predicate TopIs(ms: seq<Learn>, r: Round) {
    && (forall m :: m in ms ==> AtMost(m.rnd, r))
    && (if ms == [] then r == ZERO_ROUND else exists m :: m in ms && m.rnd == r)
  }

  /** The learns are those of round r, one of each replica that sent one. */
  ghost predicate OneOfEach(learns: seq<Learn>, ms: seq<Learn>, r: Round) {
    && (forall m :: m in learns ==> m in ms && m.rnd == r)
    && (forall j: nat, k: nat :: j < k < |learns| ==> learns[j].id != learns[k].id)
    && SendersIn(learns, r) == SendersIn(ms, r)
  }

  /** What a slot holds after some learns: those of the highest round, one of each of its senders. */
  ghost predicate LrTally(slot: LrSlot, id: SlotID, ms: seq<Learn>) {
    && slot.id == id && !slot.learned
    && TopIs(ms, slot.rnd)
    && OneOfEach(slot.learns, ms, slot.rnd)
    && slot.voted == SendersIn(ms, slot.rnd)
    && slot.votes == |slot.learns| == |slot.voted|
  }

  lemma SendersInNext(ms: seq<Learn>, m: Learn, r: Round)
    ensures SendersIn(ms + [m], r) == SendersIn(ms, r) + if m.rnd == r then {m.id} else {}
  {
  }

  lemma NoneSentAbove(ms: seq<Learn>, top: Round, r: Round)
    requires Less(top, r) && forall m :: m in ms ==> AtMost(m.rnd, top)
    ensures SendersIn(ms, r) == {}
  {
  }

  lemma TopNext(ms: seq<Learn>, m: Learn, r: Round)
    requires TopIs(ms, r) && Less(ZERO_ROUND, m.rnd)
    ensures TopIs(ms + [m], if Less(r, m.rnd) then m.rnd else r)
  {
    assert m in ms + [m];
    forall x | x in ms
      ensures x in ms + [m]
    {
    }
  }

  /** A learn of another round changes nothing, and neither does a second one of the same sender. */
  lemma OneOfEachKept(learns: seq<Learn>, ms: seq<Learn>, m: Learn, r: Round)
    requires OneOfEach(learns, ms, r) && (m.rnd != r || m.id in SendersIn(ms, r))
    ensures OneOfEach(learns, ms + [m], r) && SendersIn(ms + [m], r) == SendersIn(ms, r)
  {
    SendersInNext(ms, m, r);
  }

  lemma OneOfEachMore(learns: seq<Learn>, ms: seq<Learn>, m: Learn, r: Round)
    requires OneOfEach(learns, ms, r) && m.rnd == r && m.id !in SendersIn(ms, r)
    ensures OneOfEach(learns + [m], ms + [m], r)
  {
    SendersInNext(ms, m, r);
    SendersInNext(learns, m, r);
    forall k: nat | k < |learns|
      ensures learns[k].id != m.id
    {
      assert learns[k] in learns;
    }
  }

  lemma LrTallyNext(slot: LrSlot, ms: seq<Learn>, m: Learn, now: seq<Epoch>)
    requires LrTally(slot, m.slot, ms) && Less(ZERO_ROUND, m.rnd)
    ensures LrTally(Collect(slot, m, now), m.slot, ms + [m])
  {
    TopNext(ms, m, slot.rnd);
    SendersInNext(ms, m, m.rnd);
    if Less(slot.rnd, m.rnd) {
      NoneSentAbove(ms, slot.rnd, m.rnd);
      OneOfEachMore([], ms, m, m.rnd);
      assert [] + [m] == [m];
    } else if m.rnd != slot.rnd || m.id in slot.voted {
      OneOfEachKept(slot.learns, ms, m, slot.rnd);
    } else {
      OneOfEachMore(slot.learns, ms, m, slot.rnd);
    }
  }

  /**
   * Whatever learns of a slot came, in whatever rounds, order and number: the slot holds
   * the highest round, and of each replica that sent a learn of this round exactly one.
   */
  lemma {:induction false} CollectAllTally(id: SlotID, ms: seq<Learn>, vs: seq<seq<Epoch>>)
    requires |vs| == |ms| && forall m :: m in ms ==> m.slot == id && Less(ZERO_ROUND, m.rnd)
    ensures LrTally(CollectAll(FreshSlot(id), ms, vs), id, ms)
    decreases |ms|
  {
    if ms == [] {
      assert SendersIn(ms, ZERO_ROUND) == {};
    } else {
      var n := |ms| - 1;
      assert ms[n] in ms && ms[..n] + [ms[n]] == ms;
      CollectAllTally(id, ms[..n], vs[..n]);
      LrTallyNext(CollectAll(FreshSlot(id), ms[..n], vs[..n]), ms[..n], ms[n], vs[n]);
    }
  }

  /** Some learn came with another epoch vector than the replica had. */
  ghost predicate Differs(ms: seq<Learn>, vs: seq<seq<Epoch>>)
    requires |vs| == |ms|
  {
    exists k: nat :: k < |ms| && ms[k].epochVector != vs[k]
  }

  lemma {:induction false} CheckedIffDiffers(id: SlotID, ms: seq<Learn>, vs: seq<seq<Epoch>>)
    requires |vs| == |ms|
    ensures !CollectAll(FreshSlot(id), ms, vs).learned
    ensures CollectAll(FreshSlot(id), ms, vs).checkVQ <==> Differs(ms, vs)
    decreases |ms|
  {
    if ms != [] {
      var n := |ms| - 1;
      CheckedIffDiffers(id, ms[..n], vs[..n]);
      assert forall k: nat :: k < n ==> ms[..n][k] == ms[k] && vs[..n][k] == vs[k];
      assert Differs(ms, vs) <==> Differs(ms[..n], vs[..n]) || ms[n].epochVector != vs[n];
    }
  }

  /** The learn is of the highest round, the first of its sender there, and makes its senders a quorum. */
  ghost predicate CompletesQuorum(ms: seq<Learn>, m: Learn, quorum: nat) {
    && (forall x :: x in ms ==> AtMost(x.rnd, m.rnd))
    && m.id !in SendersIn(ms, m.rnd)
    && |SendersIn(ms + [m], m.rnd)| >= quorum
  }

  /**
   * When a learn hands out a value with Live Replacement, whatever learns came before: on the
   * fast path if and only if it is of the highest round so far and makes the distinct senders
   * of this round a quorum; on the slow path, which is taken once an epoch vector has
   * differed, if and only if moreover there is a valid quorum among the learns of this round,
   * one of each sender.
   */
  lemma LearnedLrExactlyOnQuorum(ms: seq<Learn>, vs: seq<seq<Epoch>>, m: Learn, epochs: seq<Epoch>, quorum: nat)
    requires |vs| == |ms| && forall x :: x in ms + [m] ==> x.slot == m.slot && Less(ZERO_ROUND, x.rnd)
    ensures var before := CollectAll(FreshSlot(m.slot), ms, vs);
            var slot := Collect(before, m, epochs);
            && (Reaches(before, m, epochs, quorum) <==> CompletesQuorum(ms, m, quorum))
            && (slot.checkVQ <==> Differs(ms, vs) || m.epochVector != epochs)
            && (Reaches(before, m, epochs, quorum) ==> OneOfEach(slot.learns, ms + [m], m.rnd))
  {
    var before := CollectAll(FreshSlot(m.slot), ms, vs);
    assert forall x :: x in ms ==> x in ms + [m];
    assert m in ms + [m];
    CollectAllTally(m.slot, ms, vs);
    CheckedIffDiffers(m.slot, ms, vs);
    LrTallyNext(before, ms, m, epochs);
    CountsIff(before, ms, m);
  }

  lemma CountsIff(slot: LrSlot, ms: seq<Learn>, m: Learn)
    requires LrTally(slot, m.slot, ms) && Less(ZERO_ROUND, m.rnd)
    ensures Counts(slot, m) <==> (forall x :: x in ms ==> AtMost(x.rnd, m.rnd)) && m.id !in SendersIn(ms, m.rnd)
    ensures Counts(slot, m) ==> Collect(slot, m, []).rnd == m.rnd
  {
    if Less(slot.rnd, m.rnd) {
      NoneSentAbove(ms, slot.rnd, m.rnd);
    } else if Less(m.rnd, slot.rnd) {
      var x :| x in ms && x.rnd == slot.rnd;
    }
  }

  /** The learns counted without a check carry vectors that rise, up to the replica's present one. */
  ghost predicate LearnsRise(slot: LrSlot, now: seq<Epoch>) {
    && (forall k: nat :: k < |slot.learns| ==> VectorAtMost(slot.learns[k].epochVector, now))
    && (forall j: nat, k: nat :: j < k < |slot.learns| ==>
          VectorAtMost(slot.learns[j].epochVector, slot.learns[k].epochVector))
  }

  lemma CollectRises(slot: LrSlot, msg: Learn, was: seq<Epoch>, now: seq<Epoch>)
    requires slot.learns == [] || (LearnsRise(slot, was) && VectorAtMost(was, now))
    requires !Collect(slot, msg, now).checkVQ
    ensures LearnsRise(Collect(slot, msg, now), now)
  {
    assert slot.learned || msg.epochVector == now;
  }

  lemma {:induction false} CollectAllRises(id: SlotID, ms: seq<Learn>, vs: seq<seq<Epoch>>)
    requires |vs| == |ms| > 0 && VectorsRise(vs)
    requires !CollectAll(FreshSlot(id), ms, vs).checkVQ
    ensures LearnsRise(CollectAll(FreshSlot(id), ms, vs), vs[|ms| - 1])
    decreases |ms|
  {
    var n := |ms| - 1;
    var slot := CollectAll(FreshSlot(id), ms[..n], vs[..n]);
    if n > 0 {
      CollectAllRises(id, ms[..n], vs[..n]);
      assert VectorAtMost(vs[n - 1], vs[n]);
    }
    CollectRises(slot, ms[n], vs[if n > 0 then n - 1 else 0], vs[n]);
  }

  lemma CountedBallotsRise(id: SlotID, ms: seq<Learn>, vs: seq<seq<Epoch>>)
    requires |vs| == |ms| && VectorsRise(vs) && !CollectAll(FreshSlot(id), ms, vs).checkVQ
    requires forall m :: m in ms ==> SelfKnown(Ballot(m.id, m.epochVector))
    ensures BallotsRise(LearnBallots(CollectAll(FreshSlot(id), ms, vs).learns))
  {
    var slot := CollectAll(FreshSlot(id), ms, vs);
    CollectAllGathers(id, ms, vs);
    if ms != [] {
      CollectAllRises(id, ms, vs);
    }
    forall k: nat | k < |slot.learns|
      ensures SelfKnown(LearnBallots(slot.learns)[k])
    {
      assert slot.learns[k] in slot.learns;
    }
  }

  /**
   * The fast path, whatever epoch vectors the replica has over time, as long as epochs only
   * rise and every learn knows its sender's epoch: the learns counted without a check pass
   * the check if and only if no counted sender had been replaced by the time a later learn
   * was counted. When the count is the quorum, this decides whether there is a valid quorum.
   */
  lemma FastPathValidIff(id: SlotID, ms: seq<Learn>, vs: seq<seq<Epoch>>, quorum: nat)
    requires |vs| == |ms| && VectorsRise(vs) && !CollectAll(FreshSlot(id), ms, vs).checkVQ
    requires forall m :: m in ms ==> SelfKnown(Ballot(m.id, m.epochVector))
    ensures var bs := LearnBallots(CollectAll(FreshSlot(id), ms, vs).learns);
            && BallotsRise(bs)
            && (ConflictFree(RunFrom(0, |bs|), bs) <==> NoneReplaced(bs))
            && (CollectAll(FreshSlot(id), ms, vs).votes == quorum ==> (HasQuorum(bs, quorum) <==> NoneReplaced(bs)))
  {
    var bs := LearnBallots(CollectAll(FreshSlot(id), ms, vs).learns);
    CountedBallotsRise(id, ms, vs);
    CollectAllGathers(id, ms, vs);
    RisingBallots(bs);
    if |bs| == quorum {
      WholeQuorum(bs, quorum);
    }
  }

  /** With one epoch vector throughout, nobody is replaced and the fast path is right. */
  lemma FastPathIsValid(id: SlotID, ms: seq<Learn>, epochs: seq<Epoch>, quorum: nat)
    requires forall m :: m in ms ==> SelfKnown(Ballot(m.id, m.epochVector))
    requires var slot := CollectAll(FreshSlot(id), ms, seq(|ms|, _ => epochs)); !slot.checkVQ && slot.votes >= quorum
    ensures var bs := LearnBallots(CollectAll(FreshSlot(id), ms, seq(|ms|, _ => epochs)).learns);
            ConflictFree(RunFrom(0, |bs|), bs) && HasQuorum(bs, quorum)
  {
    var vs := seq(|ms|, _ => epochs);
    var slot := CollectAll(FreshSlot(id), ms, vs);
    var bs := LearnBallots(slot.learns);
    FastPathValidIff(id, ms, vs, quorum);
    CollectAllGathers(id, ms, vs);
    SameVector(id, ms, vs, epochs);
    forall j: nat, k: nat | j < k < |bs|
      ensures NotReplaced(bs[j], bs[k])
    {
      assert SelfKnown(bs[j]) && SelfKnown(bs[k]);
      assert slot.learns[j].id != slot.learns[k].id;
    }
    PrefixQuorum(bs, quorum);
  }

  lemma {:induction false} SameVector(id: SlotID, ms: seq<Learn>, vs: seq<seq<Epoch>>, epochs: seq<Epoch>)
    requires |vs| == |ms| && (forall k: nat :: k < |vs| ==> vs[k] == epochs) && !CollectAll(FreshSlot(id), ms, vs).checkVQ
    ensures forall k: nat :: k < |CollectAll(FreshSlot(id), ms, vs).learns| ==>
              CollectAll(FreshSlot(id), ms, vs).learns[k].epochVector == epochs
    decreases |ms|
  {
    if ms != [] {
      var n := |ms| - 1;
      assert vs[n] == epochs;
      SameVector(id, ms[..n], vs[..n], epochs);
    }
  }

  /** Replica 0 is replaced between the two counts: the instance of the condition that fails. */
  lemma UnstableEpochsConflict()
    ensures var before: seq<Epoch>, after: seq<Epoch> := [0, 0, 0], [1, 0, 0];
            var m := Learn(ID(0, 0), 1, Round(2, ID(0, 0)), Noop, before);
            var n := Learn(ID(1, 0), 1, Round(2, ID(0, 0)), Noop, after);
            var slot := CollectAll(FreshSlot(1), [m, n], [before, after]);
            && VectorsRise([before, after])
            && SelfKnown(Ballot(m.id, m.epochVector)) && SelfKnown(Ballot(n.id, n.epochVector))
            && !slot.checkVQ && slot.votes == 2 && !HasQuorum(LearnBallots(slot.learns), 2)
  {
    var before: seq<Epoch>, after: seq<Epoch> := [0, 0, 0], [1, 0, 0];
    var m := Learn(ID(0, 0), 1, Round(2, ID(0, 0)), Noop, before);
    var n := Learn(ID(1, 0), 1, Round(2, ID(0, 0)), Noop, after);
    var ms, vs: seq<seq<Epoch>> := [m, n], [before, after];
    assert ms[..1] == [m] && vs[..1] == [before];
    assert CollectAll(FreshSlot(1), ms[..1], vs[..1]) == Collect(FreshSlot(1), m, before);
    var slot := CollectAll(FreshSlot(1), ms, vs);
    assert slot.learns == [m, n];
    FastPathValidIff(1, ms, vs, 2);
    assert !NotReplaced(LearnBallots(slot.learns)[0], LearnBallots(slot.learns)[1]);
  }

  // ----- Promises

  datatype PromiseState = PromiseState(
    crnd: Round,
    done: bool,
    promises: seq<Promise>,
    count: nat,
    recvFrom: set<ID>,
    checkVQ: bool)

  function PromiseBallots(ms: seq<Promise>): (bs: seq<Ballot>)
    ensures |bs| == |ms| && forall k :: 0 <= k < |ms| ==> bs[k] == Ballot(ms[k].id, ms[k].epochVector)
  {
    seq(|ms|, k requires 0 <= k < |ms| => Ballot(ms[k].id, ms[k].epochVector))
  }

  predicate Ignores(st: PromiseState, msg: Promise) {
    st.done || st.crnd != msg.rnd || msg.id in st.recvFrom
  }

  /** A promise is stored; recvFrom is left as it is, as in the source. */
  function StorePromise(st: PromiseState, msg: Promise, epochs: seq<Epoch>): PromiseState {
    if Ignores(st, msg) then st
    else st.(promises := st.promises + [msg], count := st.count + 1,
             checkVQ := st.checkVQ || msg.epochVector != epochs)
  }

  /** The state after some promises; vs[k] is the replica's epoch vector when it receives the k-th. */
  function StoreAll(st: PromiseState, ms: seq<Promise>, vs: seq<seq<Epoch>>): PromiseState
    requires |vs| == |ms|
    decreases |ms|
  {
    var n := |ms| - 1;
    if ms == [] then st else StorePromise(StoreAll(st, ms[..n], vs[..n]), ms[n], vs[n])
  }

  /** A promise that brings the count to the quorum; with epochs that differ there must be a valid quorum. */
  ghost predicate Completes(st: PromiseState, msg: Promise, epochs: seq<Epoch>, quorum: nat) {
    var t := StorePromise(st, msg, epochs);
    !Ignores(st, msg) && t.count >= quorum && (t.checkVQ ==> HasQuorum(PromiseBallots(t.promises), quorum))
  }

  function Selected(ms: seq<Promise>, vq: Indices): seq<Promise>
    requires forall k :: 0 <= k < |vq| ==> 0 <= vq[k] < |ms|
  {
    seq(|vq|, k requires 0 <= k < |vq| => ms[vq[k]])
  }

  class ProposerLr {
    const epochs: seq<Epoch>
    const quorum: nat
    var crnd: Round
    var phaseOneDone: bool
    var phaseOnePromises: seq<Promise>
    var phaseOneCount: nat
    var phaseOneRecvFrom: set<ID>
    var phaseOneVQCheck: bool

    function Abstract(): PromiseState
      reads this
    {
      PromiseState(crnd, phaseOneDone, phaseOnePromises, phaseOneCount, phaseOneRecvFrom, phaseOneVQCheck)
    }

    constructor (epochs: seq<Epoch>, quorum: nat, crnd: Round)
      ensures this.epochs == epochs && this.quorum == quorum
      ensures Abstract() == PromiseState(crnd, false, [], 0, {}, false)
    {
      this.epochs, this.quorum, this.crnd := epochs, quorum, crnd;
      phaseOneDone, phaseOnePromises, phaseOneCount, phaseOneRecvFrom, phaseOneVQCheck := false, [], 0, {}, false;
    }

    /**
     * On the slow path only the promises of the first valid quorum are kept. The search
     * panics when it reads past the end of an epoch vector before it has found a quorum.
     */
    method HandlePromLr(msg: Promise) returns (isQuorum: Outcome<bool>)
      modifies this
      ensures var t := StorePromise(old(Abstract()), msg, epochs);
              isQuorum.Panic? <==>
                && !Ignores(old(Abstract()), msg) && t.count >= quorum && t.checkVQ
                && SearchPanics(PromiseBallots(t.promises), quorum)
      ensures isQuorum.Ok? ==> (isQuorum.value <==> Completes(old(Abstract()), msg, epochs, quorum))
      ensures var t := StorePromise(old(Abstract()), msg, epochs);
              if isQuorum == Ok(true) && t.checkVQ
              then exists vq :: IsFirstQuorum(vq, PromiseBallots(t.promises), quorum)
                     && Abstract() == t.(promises := Selected(t.promises, vq))
              else Abstract() == t
    {
      if phaseOneDone {
        return Ok(false);
      }
      if Compare(crnd, msg.rnd) != 0 {
        return Ok(false);
      }
      if msg.id in phaseOneRecvFrom {
        return Ok(false);
      }
      phaseOnePromises := phaseOnePromises + [msg];
      phaseOneCount := phaseOneCount + 1;
      if !phaseOneVQCheck {
        var same := EpochSlicesEqual(msg.epochVector, epochs);
        if !same {
          phaseOneVQCheck := true;
        }
      }
      if phaseOneCount < quorum {
        return Ok(false);
      }
      if !phaseOneVQCheck {
        return Ok(true);
      }
      var vq := ExtractValidQuorum(PromiseBallots(phaseOnePromises), quorum);
      if vq.Panic? {
        return Panic;
      }
      if vq.value.None? {
        return Ok(false);
      }
      var vqmsgsidx := vq.value.value;
      if |vqmsgsidx| == |phaseOnePromises| {
        SelectAll(phaseOnePromises, vqmsgsidx);
        return Ok(true);
      }
      phaseOnePromises := Selected(phaseOnePromises, vqmsgsidx);
      return Ok(true);
    }
  }

  lemma SelectAll(ms: seq<Promise>, vq: Indices)
    requires Increasing(vq, 0, |ms|) && |vq| == |ms|
    ensures Selected(ms, vq) == ms
  {
    forall k: nat | k < |vq|
      ensures vq[k] == k
    {
      IncreasingLowerBound(vq, 0, |ms|, k);
      IncreasingUpperBound(vq, 0, |ms|, k);
    }
  }

  lemma {:induction false} IncreasingUpperBound(s: Indices, lo: int, n: int, k: nat)
    requires Increasing(s, lo, n) && k < |s|
    ensures s[k] <= n - (|s| - k)
    decreases |s| - k
  {
    if k < |s| - 1 {
      IncreasingUpperBound(s, lo, n, k + 1);
    }
  }

  function Started(crnd: Round): PromiseState {
    PromiseState(crnd, false, [], 0, {}, false)
  }

  /** The promises for the current round, in the order of arrival. */
  function OfRound(ms: seq<Promise>, r: Round): seq<Promise>
    decreases |ms|
  {
    if ms == [] then []
    else
      var n := |ms| - 1;
      OfRound(ms[..n], r) + if ms[n].rnd == r then [ms[n]] else []
  }

  /** Exactly the promises for the current round are stored, as often as they arrive. */
  lemma {:induction false} StoresCurrentRound(crnd: Round, ms: seq<Promise>, vs: seq<seq<Epoch>>)
    requires |vs| == |ms|
    ensures var t := StoreAll(Started(crnd), ms, vs);
            && t.promises == OfRound(ms, crnd) && t.count == |OfRound(ms, crnd)|
            && t.crnd == crnd && !t.done && t.recvFrom == {}
    decreases |ms|
  {
    if ms != [] {
      StoresCurrentRound(crnd, ms[..|ms| - 1], vs[..|ms| - 1]);
    }
  }

  /** Some promise for the round came with another epoch vector than the replica had. */
  ghost predicate PromiseDiffers(crnd: Round, ms: seq<Promise>, vs: seq<seq<Epoch>>)
    requires |vs| == |ms|
  {
    exists k: nat :: k < |ms| && ms[k].rnd == crnd && ms[k].epochVector != vs[k]
  }

  lemma {:induction false} CheckedIffPromiseDiffers(crnd: Round, ms: seq<Promise>, vs: seq<seq<Epoch>>)
    requires |vs| == |ms|
    ensures StoreAll(Started(crnd), ms, vs).checkVQ <==> PromiseDiffers(crnd, ms, vs)
    decreases |ms|
  {
    if ms != [] {
      var n := |ms| - 1;
      CheckedIffPromiseDiffers(crnd, ms[..n], vs[..n]);
      StoresCurrentRound(crnd, ms[..n], vs[..n]);
      assert forall k: nat :: k < n ==> ms[..n][k] == ms[k] && vs[..n][k] == vs[k];
      assert PromiseDiffers(crnd, ms, vs) <==>
             PromiseDiffers(crnd, ms[..n], vs[..n]) || (ms[n].rnd == crnd && ms[n].epochVector != vs[n]);
    }
  }

  /**
   * Whatever promises came since phase one started, the next one is reported as a quorum if
   * and only if it is for the current round, with it there are as many promises for this
   * round as the quorum needs, and, once an epoch vector differs, a valid quorum among them.
   */
  lemma PhaseOneLrExactly(crnd: Round, ms: seq<Promise>, vs: seq<seq<Epoch>>,
                          m: Promise, epochs: seq<Epoch>, quorum: nat)
    requires |vs| == |ms|
    ensures var st := StoreAll(Started(crnd), ms, vs);
            Completes(st, m, epochs, quorum) <==>
              && m.rnd == crnd && |OfRound(ms + [m], crnd)| >= quorum
              && (PromiseDiffers(crnd, ms, vs) || m.epochVector != epochs ==>
                    HasQuorum(PromiseBallots(OfRound(ms + [m], crnd)), quorum))
  {
    StoresCurrentRound(crnd, ms, vs);
    CheckedIffPromiseDiffers(crnd, ms, vs);
    assert (ms + [m])[..|ms|] == ms;
  }

  /** The promises stored without a check carry vectors that rise, up to the replica's present one. */
  ghost predicate PromisesRise(ms: seq<Promise>, now: seq<Epoch>) {
    && (forall k: nat :: k < |ms| ==> VectorAtMost(ms[k].epochVector, now))
    && (forall j: nat, k: nat :: j < k < |ms| ==> VectorAtMost(ms[j].epochVector, ms[k].epochVector))
  }

  lemma StoreRises(st: PromiseState, msg: Promise, was: seq<Epoch>, now: seq<Epoch>)
    requires st.promises == [] || (PromisesRise(st.promises, was) && VectorAtMost(was, now))
    requires !StorePromise(st, msg, now).checkVQ
    ensures PromisesRise(StorePromise(st, msg, now).promises, now)
  {
    assert Ignores(st, msg) || msg.epochVector == now;
  }

  lemma {:induction false} StoreAllStores(crnd: Round, ms: seq<Promise>, vs: seq<seq<Epoch>>)
    requires |vs| == |ms|
    ensures var t := StoreAll(Started(crnd), ms, vs);
            && t == Started(crnd).(promises := t.promises, count := |t.promises|, checkVQ := t.checkVQ)
            && forall m :: m in t.promises ==> m in ms
    decreases |ms|
  {
    if ms != [] {
      var n := |ms| - 1;
      StoreAllStores(crnd, ms[..n], vs[..n]);
      assert forall x :: x in ms <==> x in ms[..n] || x == ms[n];
    }
  }

  lemma {:induction false} StoreAllRises(crnd: Round, ms: seq<Promise>, vs: seq<seq<Epoch>>)
    requires |vs| == |ms| > 0 && VectorsRise(vs) && !StoreAll(Started(crnd), ms, vs).checkVQ
    ensures PromisesRise(StoreAll(Started(crnd), ms, vs).promises, vs[|ms| - 1])
    decreases |ms|
  {
    var n := |ms| - 1;
    var t := StoreAll(Started(crnd), ms[..n], vs[..n]);
    if n > 0 {
      StoreAllRises(crnd, ms[..n], vs[..n]);
      assert VectorAtMost(vs[n - 1], vs[n]);
    }
    StoreRises(t, ms[n], vs[if n > 0 then n - 1 else 0], vs[n]);
  }

  /**
   * The fast path of phase one, whatever epoch vectors the proposer has over time, as long
   * as epochs only rise and every promise knows its sender's epoch: when the promises stored
   * without a check reach the quorum, they are a valid one if and only if they come from
   * different positions and no sender was replaced before a later promise was stored.
   */
  lemma PromiseFastPathIff(crnd: Round, ms: seq<Promise>, vs: seq<seq<Epoch>>, quorum: nat)
    requires |vs| == |ms| && VectorsRise(vs) && !StoreAll(Started(crnd), ms, vs).checkVQ
    requires forall m :: m in ms ==> SelfKnown(Ballot(m.id, m.epochVector))
    ensures var t := StoreAll(Started(crnd), ms, vs);
            var bs := PromiseBallots(t.promises);
            && BallotsRise(bs)
            && (ConflictFree(RunFrom(0, |bs|), bs) <==> NoneReplaced(bs))
            && (t.count == quorum ==> (HasQuorum(bs, quorum) <==> NoneReplaced(bs)))
  {
    var t := StoreAll(Started(crnd), ms, vs);
    var bs := PromiseBallots(t.promises);
    StoreAllStores(crnd, ms, vs);
    if ms != [] {
      StoreAllRises(crnd, ms, vs);
    }
    forall k: nat | k < |bs|
      ensures SelfKnown(bs[k])
    {
      assert t.promises[k] in t.promises;
    }
    RisingBallots(bs);
    if |bs| == quorum {
      WholeQuorum(bs, quorum);
    }
  }

  ghost predicate DistinctSenders(ms: seq<Promise>) {
    forall j: nat, k: nat :: j < k < |ms| ==> ms[j].id != ms[k].id
  }

  lemma {:induction false} StoreAllKeeps(crnd: Round, ms: seq<Promise>, epochs: seq<Epoch>)
    requires forall m :: m in ms ==> m.rnd == crnd && m.epochVector == epochs
    ensures StoreAll(Started(crnd), ms, seq(|ms|, _ => epochs)) == Started(crnd).(promises := ms, count := |ms|)
  {
    if ms != [] {
      var n := |ms| - 1;
      StoreAllKeeps(crnd, ms[..n], epochs);
      assert seq(|ms|, _ => epochs)[..n] == seq(n, _ => epochs);
      assert ms[n] in ms && ms[..n] + [ms[n]] == ms;
    }
  }

  lemma FullCountCompletes(crnd: Round, ms: seq<Promise>, epochs: seq<Epoch>)
    requires forall m :: m in ms ==> m.rnd == crnd && m.epochVector == epochs
    requires ms != []
    ensures var n := |ms| - 1;
            Completes(StoreAll(Started(crnd), ms[..n], seq(n, _ => epochs)), ms[n], epochs, |ms|)
  {
    var n := |ms| - 1;
    StoreAllKeeps(crnd, ms[..n], epochs);
    assert ms[n] in ms && ms[..n] + [ms[n]] == ms;
  }

  lemma KnownNotReplaced(ms: seq<Promise>, epochs: seq<Epoch>, j: nat, k: nat)
    requires forall m :: m in ms ==> m.epochVector == epochs && SelfKnown(Ballot(m.id, m.epochVector))
    requires j < k < |ms|
    ensures var a, b := PromiseBallots(ms)[j], PromiseBallots(ms)[k];
            SelfKnown(a) && SelfKnown(b) && |a.epochVector| == |b.epochVector|
    ensures NotReplaced(PromiseBallots(ms)[j], PromiseBallots(ms)[k]) <==> ms[j].id != ms[k].id
  {
    assert ms[j] in ms && ms[k] in ms;
  }

  /**
   * With one epoch vector throughout: the handler reports a quorum for as many promises as
   * the quorum needs, whoever sent them, and they are a valid quorum if and only if no
   * sender's promise was delivered twice.
   */
  lemma PromiseFastPath(crnd: Round, ms: seq<Promise>, epochs: seq<Epoch>)
    requires forall m :: m in ms ==> m.rnd == crnd && m.epochVector == epochs && SelfKnown(Ballot(m.id, m.epochVector))
    requires ms != []
    ensures var n := |ms| - 1;
            Completes(StoreAll(Started(crnd), ms[..n], seq(n, _ => epochs)), ms[n], epochs, |ms|)
    ensures HasQuorum(PromiseBallots(ms), |ms|) <==> DistinctSenders(ms)
  {
    FullCountCompletes(crnd, ms, epochs);
    StoreAllKeeps(crnd, ms, epochs);
    PromiseFastPathIff(crnd, ms, seq(|ms|, _ => epochs), |ms|);
    forall j: nat, k: nat | j < k < |ms|
      ensures NotReplaced(PromiseBallots(ms)[j], PromiseBallots(ms)[k]) <==> ms[j].id != ms[k].id
    {
      KnownNotReplaced(ms, epochs, j, k);
    }
  }

  /** One promise delivered twice is reported as a quorum of two although a single replica has promised. */
  lemma DuplicatePromiseCounts()
    ensures var epochs: seq<Epoch> := [0, 0, 0];
            var m := Promise(ID(1, 0), Round(2, ID(0, 0)), [], epochs);
            && Completes(StorePromise(Started(m.rnd), m, epochs), m, epochs, 2)
            && !HasQuorum(PromiseBallots([m, m]), 2)
  {
    var epochs: seq<Epoch> := [0, 0, 0];
    var m := Promise(ID(1, 0), Round(2, ID(0, 0)), [], epochs);
    PromiseFastPath(m.rnd, [m, m], epochs);
    assert [m, m][0].id == [m, m][1].id;
  }
}
