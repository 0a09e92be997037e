/**
 * What an acceptor answers, in terms of nothing but the messages it has received, and
 * what it drops when epochs are compared.
 */
module AcceptorHistory {
  import opened Wrappers
  import opened Group
  import opened Paxos
  import opened Acceptors
  import opened HandOff

  /** A new acceptor that takes part in the slots from low on. */
  function Empty(id: ID, low: SlotID): State {
    State(id, low, map[], ZERO_ROUND, low)
  }

  function Fed(st: State, xs: seq<Input>): State
    decreases |xs|
  {
    if xs == [] then st else Feed(Fed(st, xs[..|xs| - 1]), xs[|xs| - 1]).0
  }

  function RoundOf(x: Input): Round {
    match x
    case PrepareIn(m) => m.crnd
    case AcceptIn(m) => m.rnd
  }

  /** Accepts for slots below low do not count. */
  predicate Counts(x: Input, low: SlotID) {
    x.AcceptIn? ==> low <= x.accept.slot
  }

  predicate SameBallot(x: Input, m: Accept) {
    x.AcceptIn? && x.accept.slot == m.slot && x.accept.rnd == m.rnd
  }

  /** No counted message was of a higher round, and none was an accept of this slot and round. */
  ghost predicate Answerable(xs: seq<Input>, low: SlotID, m: Accept) {
    && low <= m.slot && Less(ZERO_ROUND, m.rnd)
    && (forall x :: x in xs && Counts(x, low) ==> AtMost(RoundOf(x), m.rnd))
    && (forall x :: x in xs ==> !SameBallot(x, m))
  }

  /** The k-th message is an accept for slot i that is answered. */
  ghost predicate Granted(xs: seq<Input>, low: SlotID, i: SlotID, k: nat) {
    k < |xs| && xs[k].AcceptIn? && xs[k].accept.slot == i && Answerable(xs[..k], low, xs[k].accept)
  }

  ghost predicate LastGranted(xs: seq<Input>, low: SlotID, i: SlotID, k: nat) {
    Granted(xs, low, i, k) && forall j: nat :: Granted(xs, low, i, j) ==> j <= k
  }

  /** A slot holds the last accept for it that was answered. */
  ghost predicate HoldsLast(xs: seq<Input>, low: SlotID, i: SlotID, slot: AcceptorSlot) {
    if slot.vrnd == ZERO_ROUND then slot == FreshSlot(i) && forall k: nat :: !Granted(xs, low, i, k)
    else exists k: nat :: LastGranted(xs, low, i, k) && slot == AcceptorSlot(i, xs[k].accept.rnd, xs[k].accept.val)
  }

  /** The round is the highest of those that count. */
  ghost predicate HighestRound(xs: seq<Input>, low: SlotID, r: Round) {
    && AtMost(ZERO_ROUND, r)
    && (r == ZERO_ROUND || exists x :: x in xs && Counts(x, low) && RoundOf(x) == r)
    && forall x :: x in xs && Counts(x, low) ==> AtMost(RoundOf(x), r)
  }

  /** Every accept of the current round has been voted for. */
  ghost predicate VotedInRound(xs: seq<Input>, st: State) {
    st.rnd != ZERO_ROUND ==>
      forall x :: x in xs && x.AcceptIn? && st.lowSlot <= x.accept.slot && x.accept.rnd == st.rnd ==>
        SlotAt(st.slots, x.accept.slot).vrnd == st.rnd
  }

  ghost predicate SlotKept(xs: seq<Input>, st: State, i: SlotID) {
    var slot := SlotAt(st.slots, i);
    && AtMost(ZERO_ROUND, slot.vrnd) && AtMost(slot.vrnd, st.rnd)
    && HoldsLast(xs, st.lowSlot, i, slot)
    && (slot.vrnd != ZERO_ROUND ==> i <= st.maxSeen)
  }

  ghost predicate History(xs: seq<Input>, st: State) {
    && HighestRound(xs, st.lowSlot, st.rnd)
    && VotedInRound(xs, st)
    && forall i: SlotID :: SlotKept(xs, st, i)
  }

  // ----- The order of rounds

  lemma RoundOrder(a: Round, b: Round, c: Round)
    ensures AtMost(a, b) || Less(b, a)
    ensures !(AtMost(a, b) && Less(b, a))
    ensures AtMost(a, b) && AtMost(b, c) ==> AtMost(a, c)
    ensures AtMost(a, b) && Less(b, c) ==> Less(a, c)
    ensures Less(a, b) && AtMost(b, c) ==> Less(a, c)
    ensures AtMost(a, b) && AtMost(b, a) ==> a == b
  {
  }

  // ----- Answers

  lemma AnsweredIf(xs: seq<Input>, st: State, m: Accept)
    requires History(xs, st) && Answerable(xs, st.lowSlot, m)
    ensures AcceptStep(st, m).1.Some?
  {
    var slot := SlotAt(st.slots, m.slot);
    assert SlotKept(xs, st, m.slot);
    RoundOrder(st.rnd, m.rnd, m.rnd);
    RoundOrder(ZERO_ROUND, m.rnd, m.rnd);
    if slot.vrnd == m.rnd {
      var k: nat :| LastGranted(xs, st.lowSlot, m.slot, k)
                    && slot == AcceptorSlot(m.slot, xs[k].accept.rnd, xs[k].accept.val);
      assert xs[k] in xs && SameBallot(xs[k], m);
      assert false;
    }
  }

  lemma AnsweredOnlyIf(xs: seq<Input>, st: State, m: Accept)
    requires History(xs, st) && AcceptStep(st, m).1.Some?
    ensures Answerable(xs, st.lowSlot, m)
    ensures AcceptStep(st, m).1 == Some(Learn(st.id, m.slot, m.rnd, m.val, []))
  {
    var slot := SlotAt(st.slots, m.slot);
    assert SlotKept(xs, st, m.slot);
    RoundOrder(st.rnd, m.rnd, m.rnd);
    RoundOrder(ZERO_ROUND, st.rnd, m.rnd);
    RoundOrder(ZERO_ROUND, slot.vrnd, st.rnd);
    RoundOrder(slot.vrnd, st.rnd, m.rnd);
    assert m.rnd != ZERO_ROUND;
    forall x | x in xs && Counts(x, st.lowSlot)
      ensures AtMost(RoundOf(x), m.rnd)
    {
      RoundOrder(RoundOf(x), st.rnd, m.rnd);
    }
    forall x | x in xs
      ensures !SameBallot(x, m)
    {
      RoundOrder(m.rnd, st.rnd, m.rnd);
    }
  }

  // ----- Histories grow

  lemma GrantedSame(xs: seq<Input>, x: Input, low: SlotID, i: SlotID, k: nat)
    requires k < |xs|
    ensures Granted(xs + [x], low, i, k) <==> Granted(xs, low, i, k)
  {
    assert (xs + [x])[..k] == xs[..k];
  }

  /** A message that is not answered leaves the vote of the slot what it was. */
  lemma HoldsSame(xs: seq<Input>, x: Input, low: SlotID, i: SlotID, slot: AcceptorSlot)
    requires HoldsLast(xs, low, i, slot) && !Granted(xs + [x], low, i, |xs|)
    ensures HoldsLast(xs + [x], low, i, slot)
  {
    forall k: nat | k < |xs|
      ensures Granted(xs + [x], low, i, k) <==> Granted(xs, low, i, k)
    {
      GrantedSame(xs, x, low, i, k);
    }
    assert forall k: nat :: Granted(xs + [x], low, i, k) ==> k < |xs|;
    if slot.vrnd != ZERO_ROUND {
      var k: nat :| LastGranted(xs, low, i, k) && slot == AcceptorSlot(i, xs[k].accept.rnd, xs[k].accept.val);
      assert LastGranted(xs + [x], low, i, k) && (xs + [x])[k] == xs[k];
    }
  }

  lemma HoldsNew(xs: seq<Input>, m: Accept, low: SlotID)
    requires Answerable(xs, low, m)
    ensures HoldsLast(xs + [AcceptIn(m)], low, m.slot, AcceptorSlot(m.slot, m.rnd, m.val))
  {
    var all := xs + [AcceptIn(m)];
    assert all[..|xs|] == xs;
    assert LastGranted(all, low, m.slot, |xs|);
  }

  lemma NotGranted(xs: seq<Input>, x: Input, low: SlotID, i: SlotID)
    requires x.AcceptIn? && x.accept.slot == i ==> !Answerable(xs, low, x.accept)
    ensures !Granted(xs + [x], low, i, |xs|)
  {
    assert (xs + [x])[..|xs|] == xs;
  }

  lemma PrepareHistory(xs: seq<Input>, st: State, m: Prepare)
    requires History(xs, st)
    ensures History(xs + [PrepareIn(m)], PrepareStep(st, m).0)
  {
    var x := PrepareIn(m);
    var t := PrepareStep(st, m).0;
    assert forall y :: y in xs + [x] <==> y in xs || y == x;
    RoundOrder(m.crnd, st.rnd, st.rnd);
    RoundOrder(ZERO_ROUND, st.rnd, m.crnd);
    assert HighestRound(xs + [x], t.lowSlot, t.rnd) by {
      assert x in xs + [x] && Counts(x, t.lowSlot) && RoundOf(x) == m.crnd;
      if st.rnd != ZERO_ROUND {
        var y :| y in xs && Counts(y, st.lowSlot) && RoundOf(y) == st.rnd;
        assert y in xs + [x];
      }
      forall y | y in xs && Counts(y, t.lowSlot)
        ensures AtMost(RoundOf(y), t.rnd)
      {
        RoundOrder(RoundOf(y), st.rnd, m.crnd);
      }
    }
    forall y | y in xs && Counts(y, st.lowSlot)
      ensures Less(st.rnd, m.crnd) ==> RoundOf(y) != m.crnd
    {
      RoundOrder(RoundOf(y), st.rnd, m.crnd);
    }
    forall i: SlotID
      ensures SlotKept(xs + [x], t, i)
    {
      assert SlotKept(xs, st, i);
      NotGranted(xs, x, st.lowSlot, i);
      HoldsSame(xs, x, st.lowSlot, i, SlotAt(st.slots, i));
      RoundOrder(SlotAt(st.slots, i).vrnd, st.rnd, m.crnd);
    }
  }

  lemma AnsweredHistory(xs: seq<Input>, st: State, m: Accept)
    requires History(xs, st) && Answerable(xs, st.lowSlot, m) && AcceptStep(st, m).1.Some?
    ensures History(xs + [AcceptIn(m)], AcceptStep(st, m).0)
  {
    var x := AcceptIn(m);
    var t := AcceptStep(st, m).0;
    assert forall y :: y in xs + [x] <==> y in xs || y == x;
    assert x in xs + [x];
    HoldsNew(xs, m, st.lowSlot);
    RoundOrder(st.rnd, m.rnd, m.rnd);
    assert SlotKept(xs, st, m.slot);
    forall i: SlotID
      ensures SlotKept(xs + [x], t, i)
    {
      assert SlotKept(xs, st, i);
      RoundOrder(SlotAt(st.slots, i).vrnd, st.rnd, m.rnd);
      if i != m.slot {
        NotGranted(xs, x, st.lowSlot, i);
        HoldsSame(xs, x, st.lowSlot, i, SlotAt(st.slots, i));
      }
    }
    assert VotedInRound(xs + [x], t) by {
      forall y | y in xs && y.AcceptIn? && st.lowSlot <= y.accept.slot && y.accept.rnd == m.rnd
        ensures SlotAt(t.slots, y.accept.slot).vrnd == m.rnd
      {
        assert Counts(y, st.lowSlot) && AtMost(RoundOf(y), st.rnd);
        RoundOrder(m.rnd, st.rnd, m.rnd);
      }
    }
  }

  lemma IgnoredHistory(xs: seq<Input>, st: State, m: Accept)
    requires History(xs, st) && !Answerable(xs, st.lowSlot, m) && AcceptStep(st, m).1.None?
    ensures History(xs + [AcceptIn(m)], AcceptStep(st, m).0)
  {
    var x := AcceptIn(m);
    var t := AcceptStep(st, m).0;
    assert forall y :: y in xs + [x] <==> y in xs || y == x;
    assert SlotKept(xs, st, m.slot);
    RoundOrder(m.rnd, st.rnd, st.rnd);
    forall i: SlotID
      ensures SlotKept(xs + [x], t, i)
    {
      assert SlotKept(xs, st, i);
      NotGranted(xs, x, st.lowSlot, i);
      HoldsSame(xs, x, st.lowSlot, i, SlotAt(st.slots, i));
    }
  }

  lemma EmptyHistory(id: ID, low: SlotID)
    ensures History([], Empty(id, low))
  {
  }

  lemma {:induction false} AlwaysHistory(id: ID, low: SlotID, xs: seq<Input>)
    ensures var st := Fed(Empty(id, low), xs);
            History(xs, st) && st.id == id && st.lowSlot == low
    decreases |xs|
  {
    if xs == [] {
      EmptyHistory(id, low);
    } else {
      var front, x := xs[..|xs| - 1], xs[|xs| - 1];
      AlwaysHistory(id, low, front);
      var st := Fed(Empty(id, low), front);
      assert front + [x] == xs;
      match x
      case PrepareIn(m) => PrepareHistory(front, st, m);
      case AcceptIn(m) =>
        if Answerable(front, low, m) {
          AnsweredIf(front, st, m);
          AnsweredHistory(front, st, m);
        } else {
          if AcceptStep(st, m).1.Some? {
            AnsweredOnlyIf(front, st, m);
          }
          IgnoredHistory(front, st, m);
        }
    }
  }

  /**
   * Whatever has been received, an accept is answered, with its own slot, round and value, if
   * and only if it is for a slot the acceptor takes part in, no message that counts was of a
   * higher round, and none was an accept of the same slot and round.
   */
  lemma AcceptAnsweredIff(id: ID, low: SlotID, xs: seq<Input>, m: Accept)
    ensures var learn := AcceptStep(Fed(Empty(id, low), xs), m).1;
            learn == if Answerable(xs, low, m) then Some(Learn(id, m.slot, m.rnd, m.val, [])) else None
  {
    var st := Fed(Empty(id, low), xs);
    AlwaysHistory(id, low, xs);
    if Answerable(xs, low, m) {
      AnsweredIf(xs, st, m);
    }
    if AcceptStep(st, m).1.Some? {
      AnsweredOnlyIf(xs, st, m);
    }
  }

  /** The last answered accept of its slot, if the slot is among those asked for. */
  ghost predicate ToReport(xs: seq<Input>, low: SlotID, from: SlotID, e: AcceptorSlot) {
    && from <= e.id
    && exists k: nat ::
         LastGranted(xs, low, e.id, k) && e == AcceptorSlot(e.id, xs[k].accept.rnd, xs[k].accept.val)
  }

  lemma VotesReported(xs: seq<Input>, st: State, m: Prepare, e: AcceptorSlot)
    requires History(xs, st) && Less(ZERO_ROUND, e.vrnd)
    ensures e in VotesIn(st.slots, m.slot, st.maxSeen + 1) <==> ToReport(xs, st.lowSlot, m.slot, e)
  {
    VotesInMember(st.slots, m.slot, st.maxSeen + 1, e);
    assert SlotKept(xs, st, e.id);
    forall i: SlotID
      ensures SlotAt(st.slots, i).id == i
    {
      assert SlotKept(xs, st, i);
    }
    if ToReport(xs, st.lowSlot, m.slot, e) {
      assert SlotAt(st.slots, e.id) == e;
      assert Voted(st.slots, e.id);
    }
  }

  /**
   * Whatever has been received, a prepare is answered if and only if its round is higher than
   * that of every message that counts; apart from padding, the promise reports exactly the
   * last answered accept of every slot from the prepared one on.
   */
  lemma PrepareAnsweredIff(id: ID, low: SlotID, xs: seq<Input>, m: Prepare)
    ensures var promise := PrepareStep(Fed(Empty(id, low), xs), m).1;
            && (promise.Some? <==>
                  Less(ZERO_ROUND, m.crnd) && forall x :: x in xs && Counts(x, low) ==> Less(RoundOf(x), m.crnd))
            && (promise.Some? ==>
                  && promise.value.id == id && promise.value.rnd == m.crnd
                  && forall e: AcceptorSlot :: Less(ZERO_ROUND, e.vrnd) ==>
                       (e in promise.value.accSlots <==> ToReport(xs, low, m.slot, e)))
  {
    var st := Fed(Empty(id, low), xs);
    AlwaysHistory(id, low, xs);
    RoundOrder(ZERO_ROUND, st.rnd, m.crnd);
    forall x | x in xs && Counts(x, low)
      ensures Less(st.rnd, m.crnd) ==> Less(RoundOf(x), m.crnd)
    {
      RoundOrder(RoundOf(x), st.rnd, m.crnd);
    }
    if PrepareStep(st, m).1.Some? {
      forall e: AcceptorSlot | Less(ZERO_ROUND, e.vrnd)
        ensures e in PrepareStep(st, m).1.value.accSlots <==> ToReport(xs, low, m.slot, e)
      {
        VotesReported(xs, st, m, e);
        assert e !in Padding(m.slot, st.maxSeen);
      }
    }
  }

  /** The highest slot of an accept that counts, at least low. */
  function HighestSlot(xs: seq<Input>, low: SlotID): SlotID
    decreases |xs|
  {
    if xs == [] then low
    else
      var high, x := HighestSlot(xs[..|xs| - 1], low), xs[|xs| - 1];
      if x.AcceptIn? && x.accept.slot > high then x.accept.slot else high
  }

  lemma {:induction false} AlwaysHighestSlot(id: ID, low: SlotID, xs: seq<Input>)
    ensures Fed(Empty(id, low), xs).maxSeen == HighestSlot(xs, low) >= low
    decreases |xs|
  {
    if xs != [] {
      AlwaysHistory(id, low, xs[..|xs| - 1]);
      AlwaysHighestSlot(id, low, xs[..|xs| - 1]);
    }
  }

  /** Votes in slots of rising numbers. */
  ghost predicate RisingVotes(votes: seq<AcceptorSlot>) {
    && (forall k: nat :: k < |votes| ==> Less(ZERO_ROUND, votes[k].vrnd))
    && forall j: nat, k: nat :: j < k < |votes| ==> votes[j].id < votes[k].id
  }

  lemma {:induction false} VotesRise(slots: Slots, lo: SlotID, hi: SlotID)
    requires forall i: SlotID :: SlotAt(slots, i).id == i
    ensures RisingVotes(VotesIn(slots, lo, hi))
    ensures forall e :: e in VotesIn(slots, lo, hi) ==> e.id < hi
  {
    if lo < hi {
      VotesRise(slots, lo, hi - 1);
      var front := VotesIn(slots, lo, hi - 1);
      assert forall k: nat :: k < |front| ==> front[k] in front;
    }
  }

  /**
   * A promise holds one empty entry with slot 0 for each slot by which the prepared slot lies
   * beyond the highest slot of an accept that counts, and then the votes in the order of their slots.
   */
  lemma PromiseLayout(id: ID, low: SlotID, xs: seq<Input>, m: Prepare)
    ensures var promise, high := PrepareStep(Fed(Empty(id, low), xs), m).1, HighestSlot(xs, low);
            promise.Some? ==>
              var pads := if m.slot > high then m.slot - high else 0;
              && pads <= |promise.value.accSlots|
              && (forall k: nat :: k < pads ==> promise.value.accSlots[k] == AcceptorSlot(0, ZERO_ROUND, Noop))
              && RisingVotes(promise.value.accSlots[pads..])
  {
    var st := Fed(Empty(id, low), xs);
    AlwaysHistory(id, low, xs);
    AlwaysHighestSlot(id, low, xs);
    forall i: SlotID
      ensures SlotAt(st.slots, i).id == i
    {
      assert SlotKept(xs, st, i);
    }
    VotesRise(st.slots, m.slot, st.maxSeen + 1);
    var pads, votes := Padding(m.slot, st.maxSeen), VotesIn(st.slots, m.slot, st.maxSeen + 1);
    assert (pads + votes)[|pads|..] == votes;
  }

  // ----- Epochs

  predicate OwnEpoch(id: ID, x: Input) {
    (match x case PrepareIn(m) => m.id.epoch case AcceptIn(m) => m.id.epoch) == id.epoch
  }

  function FeedAr(st: State, x: Input): (State, Output) {
    match x
    case PrepareIn(m) => var (t, p) := PrepareStepAr(st, m); (t, PromiseOut(p))
    case AcceptIn(m) => var (t, l) := AcceptStepAr(st, m); (t, LearnOut(l))
  }

  function FedAr(st: State, xs: seq<Input>): State
    decreases |xs|
  {
    if xs == [] then st else FeedAr(FedAr(st, xs[..|xs| - 1]), xs[|xs| - 1]).0
  }

  /** The messages that come from the acceptor's own epoch. */
  function Own(id: ID, xs: seq<Input>): seq<Input>
    decreases |xs|
  {
    if xs == [] then []
    else Own(id, xs[..|xs| - 1]) + if OwnEpoch(id, xs[|xs| - 1]) then [xs[|xs| - 1]] else []
  }

  predicate NoAnswer(out: Output) {
    match out
    case PromiseOut(p) => p.None?
    case LearnOut(l) => l.None?
  }

  lemma FeedKeepsID(st: State, x: Input)
    ensures Feed(st, x).0.id == st.id
  {
  }

  /**
   * With ARec reconfiguration an acceptor is, at every moment, the acceptor that has received
   * only the messages of its own epoch: those it answers alike, and no others.
   */
  lemma {:induction false} OtherEpochsAreAbsent(st: State, xs: seq<Input>, x: Input)
    ensures FedAr(st, xs) == Fed(st, Own(st.id, xs)) && FedAr(st, xs).id == st.id
    ensures var out := FeedAr(FedAr(st, xs), x).1;
            if OwnEpoch(st.id, x) then out == Feed(Fed(st, Own(st.id, xs)), x).1 else NoAnswer(out)
    decreases |xs|
  {
    if xs != [] {
      var front, last := xs[..|xs| - 1], xs[|xs| - 1];
      OtherEpochsAreAbsent(st, front, last);
      var own := Own(st.id, front);
      FeedKeepsID(Fed(st, own), last);
      assert (own + [last])[..|own|] == own;
      assert own + [] == own;
    }
  }
}
