/**
 * When a BatchPaxos leader commits: over any series of events a batch is committed by
 * exactly the learn that makes the distinct senders of the batch's learns a quorum.
 */
module BatchCommits {
  import opened Wrappers
  import opened Group
  import Sets
  import opened Batching
  import opened BatchPoints
  import opened BatchQuorum
  import opened BatchAcceptors
  import opened BatchFacts
  import opened BatchSafety
  import opened BatchTheorems

  /** The replica after a series of events, unless one ended the process. */
  ghost function After(st: State, evs: seq<Event>): Outcome<State>
    requires forall k: nat :: k < |evs| ==> Orderly(evs[k])
    decreases |evs|
  {
    if evs == [] then Ok(st)
    else
      match After(st, evs[..|evs| - 1])
      case Panic => Panic
      case Ok(t) => Step(t, evs[|evs| - 1])
  }

  /** The learns among the events that are for batch b. */
  function LearnsFor(evs: seq<Event>, b: nat): seq<BatchLearn>
    decreases |evs|
  {
    if evs == [] then []
    else
      var ev := evs[|evs| - 1];
      LearnsFor(evs[..|evs| - 1], b) + if ev.Learned? && ev.learn.batchID == b then [ev.learn] else []
  }

  /** The learn makes the distinct senders of its batch's learns a quorum. */
  predicate CompletesBatch(learns: seq<BatchLearn>, m: BatchLearn, quorum: nat) {
    |Senders(learns)| < quorum <= |Senders(learns + [m])|
  }

  ghost predicate NoLearnsYet(st: State) {
    forall b: nat :: StateAt(st.states, b).learns == [] && !StateAt(st.states, b).learnsNotified
  }

  /** The learns of every batch are on record, and whether they are from a quorum. */
  ghost predicate OnRecord(st: State, t: State, evs: seq<Event>) {
    && t.id == st.id && t.quorumSize == st.quorumSize
    && forall b: nat ::
         && StateAt(t.states, b).learns == LearnsFor(evs, b)
         && (StateAt(t.states, b).learnsNotified <==> |Senders(LearnsFor(evs, b))| >= st.quorumSize)
  }

  ghost predicate SameLearns(st: State, t: State) {
    t.quorumSize == st.quorumSize && forall b: nat :: StateAt(t.states, b).learns == StateAt(st.states, b).learns
  }

  lemma ExecuteSameLearns(st: State, t: State, b: nat)
    requires SameLearns(st, t)
    ensures SameLearns(st, Execute(t, b))
  {
    ExecuteOnly(t, b);
    forall k: nat
      ensures StateAt(Execute(t, b).states, k).learns == StateAt(t.states, k).learns
    {
    }
  }

  lemma CommitSameLearns(st: State, msg: BatchCommit)
    ensures SameLearns(st, HandleCommit(st, msg))
  {
    var t := BatchSafety.Recorded(st, msg.batchID, msg.ranges);
    forall k: nat
      ensures StateAt(t.states, k).learns == StateAt(st.states, k).learns
    {
    }
    ExecuteSameLearns(st, t, msg.batchID);
  }

  lemma ReplySameLearns(st: State, msg: UpdateReply, order: seq<Client>)
    requires Enumerates(order, msg.values.Keys) && HandleUpdateReply(st, msg, order).Ok?
    ensures SameLearns(st, HandleUpdateReply(st, msg, order).value)
  {
    var b := msg.batchID;
    assert forall k: nat :: StateAt(Touch(st, b).states, k) == StateAt(st.states, k);
    if !StateAt(st.states, b).execute {
      var log := LoggedFor(st.log, msg.values, order);
      ExecuteSameLearns(st, Refilled(st, b, log, StateAt(st.states, b).executeRanges.Keys), b);
    }
  }

  lemma StepSameLearns(st: State, ev: Event)
    requires Orderly(ev) && Step(st, ev).Ok? && !ev.Learned?
    ensures SameLearns(st, Step(st, ev).value)
  {
    match ev
    case Committed(msg) => CommitSameLearns(st, msg);
    case UpdateReplied(msg, order) => ReplySameLearns(st, msg, order);
    case _ =>
  }

  lemma SendersNext(learns: seq<BatchLearn>, m: BatchLearn)
    ensures Senders(learns + [m]) == Senders(learns) + {m.id}
    ensures |Senders(learns)| <= |Senders(learns + [m])|
  {
    assert m in learns + [m] && forall x :: x in learns + [m] <==> x in learns || x == m;
    Sets.SubsetSize(Senders(learns), Senders(learns + [m]));
  }

  /** The commit that follows when these are all learns of the batch. */
  ghost function CommitOf(st: State, learns: seq<BatchLearn>, b: nat): BatchCommit {
    BatchCommit(st.id, b, Tried(st.points, Intersection(learns)).2)
  }

  lemma LearnCounted(st: State, msg: BatchLearn)
    requires st.quorumSize > 0
    requires var state := StateAt(st.states, msg.batchID);
             state.learnsNotified <==> |Senders(state.learns)| >= st.quorumSize
    ensures var t, learns := HandleLearn(st, msg), StateAt(st.states, msg.batchID).learns;
            && t.id == st.id && t.quorumSize == st.quorumSize
            && StateAt(t.states, msg.batchID).learns == learns + [msg]
            && (StateAt(t.states, msg.batchID).learnsNotified <==> |Senders(learns + [msg])| >= st.quorumSize)
            && (forall b: nat :: b != msg.batchID ==> StateAt(t.states, b) == StateAt(st.states, b))
    ensures var t, learns := HandleLearn(st, msg), StateAt(st.states, msg.batchID).learns;
            t.bcast == st.bcast +
                 if CompletesBatch(learns, msg, st.quorumSize)
                 then [CommitMsg(CommitOf(st, learns + [msg], msg.batchID))] else []
  {
    SendersNext(StateAt(st.states, msg.batchID).learns, msg);
  }

  lemma LearnOnRecord(st: State, t: State, evs: seq<Event>, msg: BatchLearn)
    requires st.quorumSize > 0 && OnRecord(st, t, evs)
    ensures OnRecord(st, HandleLearn(t, msg), evs + [Learned(msg)])
    ensures Commits(HandleLearn(t, msg).bcast) == Commits(t.bcast) +
              if CompletesBatch(LearnsFor(evs, msg.batchID), msg, st.quorumSize)
              then [CommitOf(t, LearnsFor(evs, msg.batchID) + [msg], msg.batchID)] else []
  {
    LearnCounted(t, msg);
    assert (evs + [Learned(msg)])[..|evs|] == evs;
    CommitsNext(t.bcast, CommitMsg(CommitOf(t, LearnsFor(evs, msg.batchID) + [msg], msg.batchID)));
    forall b: nat
      ensures var state, learns := StateAt(HandleLearn(t, msg).states, b), LearnsFor(evs + [Learned(msg)], b);
              state.learns == learns && (state.learnsNotified <==> |Senders(learns)| >= st.quorumSize)
    {
      assert b != msg.batchID ==> LearnsFor(evs + [Learned(msg)], b) == LearnsFor(evs, b) + [];
    }
  }

  lemma OtherOnRecord(st: State, t: State, evs: seq<Event>, ev: Event)
    requires OnRecord(st, t, evs) && Orderly(ev) && !ev.Learned? && Step(t, ev).Ok?
    ensures OnRecord(st, Step(t, ev).value, evs + [ev])
    ensures Commits(Step(t, ev).value.bcast) == Commits(t.bcast)
  {
    StepSame(t, ev);
    StepSameLearns(t, ev);
    assert (evs + [ev])[..|evs|] == evs;
    assert forall b: nat :: LearnsFor(evs + [ev], b) == LearnsFor(evs, b) + [];
  }

  lemma {:induction false} AlwaysOnRecord(st: State, evs: seq<Event>)
    requires NoLearnsYet(st) && st.quorumSize > 0 && forall k: nat :: k < |evs| ==> Orderly(evs[k])
    ensures After(st, evs).Ok? ==> OnRecord(st, After(st, evs).value, evs)
    decreases |evs|
  {
    if evs == [] {
      assert Senders([]) == {};
    } else {
      var front, ev := evs[..|evs| - 1], evs[|evs| - 1];
      AlwaysOnRecord(st, front);
      if After(st, evs).Ok? {
        var t := After(st, front).value;
        assert front + [ev] == evs;
        if ev.Learned? {
          LearnOnRecord(st, t, front, ev.learn);
        } else {
          OtherOnRecord(st, t, front, ev);
        }
      }
    }
  }

  /**
   * After any series of events, the next event sends a commit if and only if it is a learn
   * that completes its batch; the commit is that of all learns of the batch.
   */
  lemma CommitsExactlyOnQuorum(st: State, evs: seq<Event>, ev: Event)
    requires NoLearnsYet(st) && st.quorumSize > 0 && Orderly(ev) && forall k: nat :: k < |evs| ==> Orderly(evs[k])
    requires After(st, evs).Ok? && Step(After(st, evs).value, ev).Ok?
    ensures var t := After(st, evs).value;
            Commits(Step(t, ev).value.bcast) == Commits(t.bcast) +
              if ev.Learned? && CompletesBatch(LearnsFor(evs, ev.learn.batchID), ev.learn, st.quorumSize)
              then [CommitOf(t, LearnsFor(evs, ev.learn.batchID) + [ev.learn], ev.learn.batchID)] else []
  {
    var t := After(st, evs).value;
    AlwaysOnRecord(st, evs);
    if ev.Learned? {
      LearnOnRecord(st, t, evs, ev.learn);
    } else {
      OtherOnRecord(st, t, evs, ev);
    }
  }
}
