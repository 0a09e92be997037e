/** Handing an acceptor's state to another replica (paxos/utils.go). */
module HandOff {
  import opened Wrappers
  import opened Group
  import opened Paxos
  import opened Acceptors
  import M = MultiPaxos

  /** The reported entries that are votes rather than padding. */
  function RealVotes(es: seq<AcceptorSlot>): seq<AcceptorSlot> {
    if es == [] then []
    else RealVotes(es[..|es| - 1]) + if Less(ZERO_ROUND, es[|es| - 1].vrnd) then [es[|es| - 1]] else []
  }

  /** Two acceptors that cannot be told apart by messages for slots above `after`. */
  ghost predicate Alike(a: State, b: State, after: SlotID) {
    && a.id == b.id && a.lowSlot == b.lowSlot && a.rnd == b.rnd
    && (forall i: SlotID :: i > after ==> SlotAt(a.slots, i) == SlotAt(b.slots, i))
    && (forall i: SlotID :: i > after && Voted(a.slots, i) ==> i <= a.maxSeen && i <= b.maxSeen)
  }

  /** Two answers that differ at most in padding. */
  ghost predicate SameVotes(p: Option<Promise>, q: Option<Promise>) {
    && (p.Some? <==> q.Some?)
    && (p.Some? ==>
          && p.value.id == q.value.id && p.value.rnd == q.value.rnd
          && RealVotes(p.value.accSlots) == RealVotes(q.value.accSlots))
  }

  /** GetSlot raises MaxSeen to every slot it creates. */
  ghost predicate KeysSeen(st: State) {
    forall i: SlotID :: i in st.slots ==> i <= st.maxSeen
  }

  lemma KeysSeenKept(st: State, p: Prepare, m: Accept)
    requires KeysSeen(st)
    ensures KeysSeen(PrepareStep(st, p).0) && KeysSeen(AcceptStep(st, m).0)
  {
  }

  /** An acceptor that runs on the copy of st instead. */
  function OnCopy(st: State, after: SlotID): State {
    var (slots, maxSeen) := CopyRange(st.slots, after + 1, st.maxSeen + 1);
    st.(slots := slots, maxSeen := maxSeen)
  }

  lemma {:induction false} CopyRangeSlots(slots: Slots, lo: SlotID, hi: SlotID)
    ensures var (copy, maxSeen) := CopyRange(slots, lo, hi);
            && (forall i: SlotID :: i in copy <==> lo <= i < hi && i in slots)
            && (forall i: SlotID :: i in copy ==> copy[i] == slots[i] && i <= maxSeen)
  {
    if lo < hi {
      CopyRangeSlots(slots, lo, hi - 1);
    }
  }

  /** The copy is as good as the source for every slot above the hand-off mark. */
  lemma CopyAlike(st: State, after: SlotID)
    requires KeysSeen(st)
    ensures Alike(st, OnCopy(st, after), after)
  {
    CopyRangeSlots(st.slots, after + 1, st.maxSeen + 1);
  }

  lemma {:induction false} RealVotesAppend(a: seq<AcceptorSlot>, b: seq<AcceptorSlot>)
    ensures RealVotes(a + b) == RealVotes(a) + RealVotes(b)
    decreases |b|
  {
    if b == [] {
      assert a + b == a;
    } else {
      assert (a + b)[..|a + b| - 1] == a + b[..|b| - 1];
      RealVotesAppend(a, b[..|b| - 1]);
    }
  }

  lemma {:induction false} PaddingIsNoVote(n: nat)
    ensures RealVotes(seq(n, _ => FreshSlot(0))) == []
  {
    if n > 0 {
      var pad := seq(n, _ => FreshSlot(0));
      PaddingIsNoVote(n - 1);
      assert pad[..|pad| - 1] == seq(n - 1, _ => FreshSlot(0));
    }
  }

  lemma {:induction false} VotesAreReal(slots: Slots, lo: SlotID, hi: SlotID)
    ensures RealVotes(VotesIn(slots, lo, hi)) == VotesIn(slots, lo, hi)
  {
    if lo < hi {
      VotesAreReal(slots, lo, hi - 1);
      if Voted(slots, hi - 1) {
        RealVotesAppend(VotesIn(slots, lo, hi - 1), [SlotAt(slots, hi - 1)]);
      } else {
        assert VotesIn(slots, lo, hi) == VotesIn(slots, lo, hi - 1);
      }
    }
  }

  /** A promise's real votes are those held from the prepared slot on. */
  lemma PromiseVotes(st: State, msg: Prepare)
    requires Less(st.rnd, msg.crnd)
    ensures RealVotes(PrepareStep(st, msg).1.value.accSlots) == VotesIn(st.slots, msg.slot, st.maxSeen + 1)
  {
    var votes := VotesIn(st.slots, msg.slot, st.maxSeen + 1);
    RealVotesAppend(Padding(msg.slot, st.maxSeen), votes);
    VotesAreReal(st.slots, msg.slot, st.maxSeen + 1);
    if msg.slot >= st.maxSeen {
      PaddingIsNoVote(msg.slot - st.maxSeen);
    }
  }

  /** Slots without votes at the upper end add nothing. */
  lemma {:induction false} VotesInShrink(slots: Slots, lo: SlotID, hi: SlotID, hi': SlotID)
    requires hi <= hi'
    requires forall i: SlotID :: lo <= i && hi <= i < hi' ==> !Voted(slots, i)
    ensures VotesIn(slots, lo, hi) == VotesIn(slots, lo, hi')
    decreases hi'
  {
    if hi < hi' && lo < hi' {
      VotesInShrink(slots, lo, hi, hi' - 1);
    }
  }

  lemma AlikeVotes(a: State, b: State, after: SlotID, lo: SlotID)
    requires Alike(a, b, after) && lo > after
    ensures VotesIn(a.slots, lo, a.maxSeen + 1) == VotesIn(b.slots, lo, b.maxSeen + 1)
  {
    var hi := (if a.maxSeen > b.maxSeen then a.maxSeen else b.maxSeen) + 1;
    forall i: SlotID | lo <= i
      ensures Voted(a.slots, i) == Voted(b.slots, i)
    {
      assert SlotAt(a.slots, i) == SlotAt(b.slots, i);
    }
    VotesInShrink(a.slots, lo, a.maxSeen + 1, hi);
    VotesInShrink(b.slots, lo, b.maxSeen + 1, hi);
    VotesInTouched(a.slots, b.slots, lo, hi);
  }

  /** Alike acceptors answer a prepare above the mark with the same round and votes, and stay alike. */
  lemma PreparesAlike(a: State, b: State, after: SlotID, msg: Prepare)
    requires Alike(a, b, after) && msg.slot > after
    ensures SameVotes(PrepareStep(a, msg).1, PrepareStep(b, msg).1)
    ensures Alike(PrepareStep(a, msg).0, PrepareStep(b, msg).0, after)
  {
    if Less(a.rnd, msg.crnd) {
      PromiseVotes(a, msg);
      PromiseVotes(b, msg);
      AlikeVotes(a, b, after, msg.slot);
      var a', b' := PrepareStep(a, msg).0, PrepareStep(b, msg).0;
      forall i: SlotID | i > after
        ensures SlotAt(a'.slots, i) == SlotAt(b'.slots, i)
        ensures Voted(a'.slots, i) ==> i <= a'.maxSeen && i <= b'.maxSeen
      {
        assert SlotAt(a'.slots, i) == SlotAt(a.slots, i) && SlotAt(b'.slots, i) == SlotAt(b.slots, i);
        assert Voted(a'.slots, i) == Voted(a.slots, i);
      }
    }
  }

  /** Alike acceptors answer an accept above the mark with the same learn, and stay alike. */
  lemma AcceptsAlike(a: State, b: State, after: SlotID, msg: Accept)
    requires Alike(a, b, after) && msg.slot > after
    ensures AcceptStep(a, msg).1 == AcceptStep(b, msg).1
    ensures Alike(AcceptStep(a, msg).0, AcceptStep(b, msg).0, after)
  {
    assert SlotAt(a.slots, msg.slot) == SlotAt(b.slots, msg.slot);
    var a', b' := AcceptStep(a, msg).0, AcceptStep(b, msg).0;
    forall i: SlotID | i > after
      ensures SlotAt(a'.slots, i) == SlotAt(b'.slots, i)
      ensures Voted(a'.slots, i) ==> i <= a'.maxSeen && i <= b'.maxSeen
    {
      assert SlotAt(a.slots, i) == SlotAt(b.slots, i);
      assert i != msg.slot ==> SlotAt(a'.slots, i) == SlotAt(a.slots, i) && SlotAt(b'.slots, i) == SlotAt(b.slots, i);
      assert i != msg.slot ==> Voted(a'.slots, i) == Voted(a.slots, i);
    }
  }

  // ----- Whole runs

  datatype Input = PrepareIn(prepare: Prepare) | AcceptIn(accept: Accept)
  datatype Output = PromiseOut(promise: Option<Promise>) | LearnOut(learn: Option<Learn>)

  function SlotOf(x: Input): SlotID {
    match x
    case PrepareIn(m) => m.slot
    case AcceptIn(m) => m.slot
  }

  function Feed(st: State, x: Input): (State, Output) {
    match x
    case PrepareIn(m) => var (t, p) := PrepareStep(st, m); (t, PromiseOut(p))
    case AcceptIn(m) => var (t, l) := AcceptStep(st, m); (t, LearnOut(l))
  }

  function FeedAll(st: State, xs: seq<Input>): seq<Output>
    decreases |xs|
  {
    if xs == [] then [] else [Feed(st, xs[0]).1] + FeedAll(Feed(st, xs[0]).0, xs[1..])
  }

  ghost predicate SameOutput(a: Output, b: Output) {
    match (a, b)
    case (PromiseOut(p), PromiseOut(q)) => SameVotes(p, q)
    case (LearnOut(l), LearnOut(m)) => l == m
    case _ => false
  }

  lemma {:induction false} RunsAlike(a: State, b: State, after: SlotID, xs: seq<Input>, k: nat)
    requires Alike(a, b, after) && k < |xs|
    requires forall x :: x in xs ==> SlotOf(x) > after
    ensures |FeedAll(a, xs)| == |FeedAll(b, xs)| == |xs|
    ensures SameOutput(FeedAll(a, xs)[k], FeedAll(b, xs)[k])
    decreases |xs|
  {
    var x := xs[0];
    assert x in xs;
    match x {
      case PrepareIn(m) => PreparesAlike(a, b, after, m);
      case AcceptIn(m) => AcceptsAlike(a, b, after, m);
    }
    var a', b' := Feed(a, x).0, Feed(b, x).0;
    if |xs| > 1 {
      assert xs[if k > 0 then k else 1] == xs[1..][if k > 0 then k - 1 else 0];
      RunsAlike(a', b', after, xs[1..], if k > 0 then k - 1 else 0);
    }
  }

  /**
   * Hand-off: whatever prepares and accepts for slots above the mark follow, an
   * acceptor on the copy gives the same rounds, real votes and learns as one on the source.
   */
  lemma HandOffTransparent(st: State, after: SlotID, xs: seq<Input>, k: nat)
    requires KeysSeen(st)
    requires forall x :: x in xs ==> SlotOf(x) > after
    requires k < |xs|
    ensures |FeedAll(st, xs)| == |FeedAll(OnCopy(st, after), xs)| == |xs|
    ensures SameOutput(FeedAll(st, xs)[k], FeedAll(OnCopy(st, after), xs)[k])
  {
    CopyAlike(st, after);
    RunsAlike(st, OnCopy(st, after), after, xs, k);
  }

  // ----- Acceptors of a cluster

  lemma ClusterKeysSeen(s: M.System, act: M.Action, a: nat)
    requires act.i < |s.props| && act.i < |s.accs| && act.i < |s.lrns| && a < |s.accs|
    requires KeysSeen(s.accs[a])
    ensures a < |M.Apply(s, act).accs| && KeysSeen(M.Apply(s, act).accs[a])
  {
    match act
    case PrepareAct(i, msg) =>
      if i == a {
        KeysSeenKept(s.accs[a], msg, Accept(ZERO_ID, 0, ZERO_ROUND, Noop));
      }
    case AcceptAct(i, msg) =>
      if i == a {
        KeysSeenKept(s.accs[a], Prepare(ZERO_ID, ZERO_ROUND, 0), msg);
      }
    case _ =>
  }

  /** In every run each acceptor has raised MaxSeen to all slots it holds. */
  lemma {:induction false} RunKeysSeen(c: M.Cluster, tr: seq<M.System>, i: nat, a: nat)
    requires M.Run(c, tr) && i < |tr| && a < c.Size()
    ensures a < |tr[i].accs| && KeysSeen(tr[i].accs[a])
  {
    if i > 0 {
      RunKeysSeen(c, tr, i - 1, a);
      assert M.Next(c, tr[i - 1], tr[i - 1 + 1]);
      var act :| M.Enabled(c, tr[i - 1], act) && tr[i] == M.Apply(tr[i - 1], act);
      ClusterKeysSeen(tr[i - 1], act, a);
    }
  }

  /** Hand-off of the state of any acceptor in any run: nobody can tell the copy from the source above the mark. */
  lemma HandOffInRuns(c: M.Cluster, tr: seq<M.System>, i: nat, a: nat, after: SlotID, xs: seq<Input>, k: nat)
    requires M.Run(c, tr) && i < |tr| && a < c.Size() && k < |xs|
    requires forall x :: x in xs ==> SlotOf(x) > after
    ensures a < |tr[i].accs|
    ensures var st := tr[i].accs[a];
            && |FeedAll(st, xs)| == |FeedAll(OnCopy(st, after), xs)| == |xs|
            && SameOutput(FeedAll(st, xs)[k], FeedAll(OnCopy(st, after), xs)[k])
  {
    RunKeysSeen(c, tr, i, a);
    HandOffTransparent(tr[i].accs[a], after, xs, k);
  }
}
