/**
 * The update protocol of BatchPaxos: a replica that misses requests of a committed
 * batch has always asked for them, and one answer is enough to mark the batch.
 */
module BatchUpdate {
  import opened Wrappers
  import opened Group
  import opened Batching
  import opened BatchPoints
  import opened BatchQuorum
  import opened BatchAcceptors
  import opened BatchFacts
  import opened BatchSafety
  import BT = BatchTheorems

  // ----- Asking

  /** The ranges in which the log lacks a request. */
  ghost predicate ExactlyMissing(log: ClientLog, ranges: RangeMap, asked: RangeMap) {
    forall c :: (c in asked <==> c in ranges && !Complete(log, c, ranges[c])) && (c in asked ==> asked[c] == ranges[c])
  }

  ghost predicate AskedWith(log: ClientLog, t: State, b: nat) {
    exists asked ::
      && ExactlyMissing(log, StateAt(t.states, b).executeRanges, asked)
      && asked != map[] && UpdateRequestMsg(UpdateRequest(t.id, b, asked)) in t.bcast
  }

  /** A commit that is handled marks its batch or asks for what is missing; no other event touches what was committed. */
  ghost predicate AsksIfIncomplete(st: State, ev: Event, t: State, b: nat) {
    && t.id == st.id && st.bcast <= t.bcast
    && if ev.Committed? && ev.commit.batchID == b then
         && StateAt(t.states, b).executeRanges == ev.commit.ranges
         && (AllComplete(st.log, ev.commit.ranges) ==> StateAt(t.states, b).execute)
         && (!AllComplete(st.log, ev.commit.ranges) ==> AskedWith(st.log, t, b))
       else
         && StateAt(t.states, b).executeRanges == StateAt(st.states, b).executeRanges
         && (StateAt(st.states, b).execute ==> StateAt(t.states, b).execute)
  }

  lemma RecordedStates(st: State, k: nat, ranges: RangeMap, b: nat)
    ensures StateAt(Recorded(st, k, ranges).states, b) ==
              if b == k then StateAt(st.states, b).(executeRanges := ranges) else StateAt(st.states, b)
  {
  }

  lemma CommitAsks(st: State, msg: BatchCommit, b: nat)
    ensures AsksIfIncomplete(st, Committed(msg), HandleCommit(st, msg), b)
  {
    var k := msg.batchID;
    var t, inc := Recorded(st, k, msg.ranges), Incomplete(st.log, msg.ranges);
    RecordedStates(st, k, msg.ranges, b);
    IncompleteIsEmpty(st.log, msg.ranges);
    if inc == map[] {
      ExecuteOnly(t, k);
    } else {
      assert ExactlyMissing(st.log, msg.ranges, inc);
      assert UpdateRequestMsg(UpdateRequest(st.id, k, inc)) in HandleCommit(st, msg).bcast;
    }
  }

  lemma ReplyAsksNothing(st: State, msg: UpdateReply, order: seq<Client>, b: nat)
    requires Enumerates(order, msg.values.Keys) && HandleUpdateReply(st, msg, order).Ok?
    ensures AsksIfIncomplete(st, UpdateReplied(msg, order), HandleUpdateReply(st, msg, order).value, b)
  {
    var k := msg.batchID;
    if !StateAt(st.states, k).execute {
      var log := LoggedFor(st.log, msg.values, order);
      ExecuteOnly(Refilled(st, k, log, StateAt(st.states, k).executeRanges.Keys), k);
    }
  }

  lemma LearnAsksNothing(st: State, msg: BatchLearn, b: nat)
    ensures AsksIfIncomplete(st, Learned(msg), HandleLearn(st, msg), b)
  {
    LearnKeeps(st, msg);
  }

  lemma StepAsks(st: State, ev: Event, b: nat)
    requires Orderly(ev) && Step(st, ev).Ok?
    ensures AsksIfIncomplete(st, ev, Step(st, ev).value, b)
  {
    match ev
    case Learned(msg) => LearnAsksNothing(st, msg, b);
    case Committed(msg) => CommitAsks(st, msg, b);
    case UpdateReplied(msg, order) => ReplyAsksNothing(st, msg, order, b);
    case _ =>
  }

  /** In state s replica q handles a commit of these ranges for batch b. */
  ghost predicate HandlesCommit(content: Content, s: System, s': System, q: ID, b: nat, ranges: RangeMap) {
    exists msg: BatchCommit ::
      && msg.batchID == b && msg.ranges == ranges
      && Enabled(content, s, q, Committed(msg)) && s' == Apply(s, q, Committed(msg))
  }

  /** What was missing in state s, in which q handles the commit, has been asked for. */
  ghost predicate AskedAt(content: Content, s: System, s': System, q: ID, b: nat, st: State) {
    && q in s.reps && HandlesCommit(content, s, s', q, b, StateAt(st.states, b).executeRanges)
    && AskedWith(s.reps[q].log, st, b)
  }

  /** Batch b is marked, or the replica has asked for what was missing when it handled the commit now on record. */
  ghost predicate MarkedOrAsked(content: Content, tr: seq<System>, st: State, q: ID, b: nat) {
    StateAt(st.states, b).executeRanges != map[] && !StateAt(st.states, b).execute ==>
      exists k: nat :: k < |tr| - 1 && AskedAt(content, tr[k], tr[k + 1], q, b, st)
  }

  lemma AskedAtStays(content: Content, s: System, s': System, q: ID, ev: Event, b: nat, st: State, t: State)
    requires AskedAt(content, s, s', q, b, st)
    requires AsksIfIncomplete(st, ev, t, b) && !(ev.Committed? && ev.commit.batchID == b)
    ensures AskedAt(content, s, s', q, b, t)
  {
    var ranges := StateAt(st.states, b).executeRanges;
    var asked :| ExactlyMissing(s.reps[q].log, ranges, asked) && asked != map[]
                 && UpdateRequestMsg(UpdateRequest(st.id, b, asked)) in st.bcast;
    assert UpdateRequestMsg(UpdateRequest(t.id, b, asked)) in t.bcast;
  }

  lemma AskedStays(content: Content, tr: seq<System>, st: State, t: State, q: ID, ev: Event, b: nat)
    requires tr != [] && MarkedOrAsked(content, tr[..|tr| - 1], st, q, b)
    requires AsksIfIncomplete(st, ev, t, b) && !(ev.Committed? && ev.commit.batchID == b)
    ensures MarkedOrAsked(content, tr, t, q, b)
  {
    var front := tr[..|tr| - 1];
    if StateAt(t.states, b).executeRanges != map[] && !StateAt(t.states, b).execute {
      var k: nat :| k < |front| - 1 && AskedAt(content, front[k], front[k + 1], q, b, st);
      AskedAtStays(content, front[k], front[k + 1], q, ev, b, st, t);
      assert front[k] == tr[k] && front[k + 1] == tr[k + 1];
    }
  }

  lemma AskedNow(content: Content, s: System, s': System, q: ID, msg: BatchCommit)
    requires Enabled(content, s, q, Committed(msg)) && s' == Apply(s, q, Committed(msg))
    ensures q in s'.reps && var t := s'.reps[q];
            StateAt(t.states, msg.batchID).execute || AskedAt(content, s, s', q, msg.batchID, t)
  {
    StepAsks(s.reps[q], Committed(msg), msg.batchID);
    assert HandlesCommit(content, s, s', q, msg.batchID, msg.ranges);
  }

  lemma NextAsked(content: Content, tr: seq<System>, p: ID, ev: Event, q: ID, b: nat)
    requires |tr| > 1 && Enabled(content, tr[|tr| - 2], p, ev) && tr[|tr| - 1] == Apply(tr[|tr| - 2], p, ev)
    requires q in tr[|tr| - 2].reps && MarkedOrAsked(content, tr[..|tr| - 1], tr[|tr| - 2].reps[q], q, b)
    ensures q in tr[|tr| - 1].reps && MarkedOrAsked(content, tr, tr[|tr| - 1].reps[q], q, b)
    ensures tr[|tr| - 1].reps[q].id == tr[|tr| - 2].reps[q].id
  {
    var s, s' := tr[|tr| - 2], tr[|tr| - 1];
    var st, t := s.reps[q], s'.reps[q];
    if p == q && Step(st, ev).Ok? {
      StepAsks(st, ev, b);
      if ev.Committed? && ev.commit.batchID == b {
        AskedNow(content, s, s', q, ev.commit);
        assert tr[|tr| - 2 + 1] == s';
      } else {
        AskedStays(content, tr, st, t, q, ev, b);
      }
    } else {
      NothingAsked(st, b);
      AskedStays(content, tr, st, st, q, BatchTimeout, b);
    }
  }

  /**
   * In every state of every run, a replica that has a commit with some range on record for
   * a batch that is not marked has broadcast an update request for exactly the ranges in
   * which it lacked a request when it handled that commit.
   */
  lemma {:induction false} AlwaysAsked(content: Content, tr: seq<System>, q: ID, b: nat)
    requires Run(content, tr) && q in tr[|tr| - 1].reps
    ensures tr[|tr| - 1].reps[q].id == q
    ensures MarkedOrAsked(content, tr, tr[|tr| - 1].reps[q], q, b)
    decreases |tr|
  {
    var n := |tr| - 1;
    if n == 0 {
      assert Fresh(q, tr[0].reps[q]);
    } else {
      assert Next(content, tr[n - 1], tr[n - 1 + 1]);
      var p, ev :| Enabled(content, tr[n - 1], p, ev) && tr[n] == Apply(tr[n - 1], p, ev);
      RunPrefix(content, tr);
      AlwaysAsked(content, tr[..n], q, b);
      NextAsked(content, tr, p, ev, q, b);
    }
  }

  lemma NothingAsked(st: State, b: nat)
    ensures AsksIfIncomplete(st, BatchTimeout, st, b)
  {
  }

  // ----- Answering

  /** One packet for the replica that asked, with all requests of the ranges it asked for. */
  ghost predicate AnswersWith(content: Content, st: State, msg: UpdateRequest, t: State, reply: UpdateReply) {
    && t.ucast == st.ucast + [Packet(msg.id, UpdateReplyMsg(reply))]
    && reply.batchID == msg.batchID && reply.ranges == msg.ranges && reply.id == st.id
    && Supplies(content, msg.ranges, reply.values)
  }

  /** A replica answers a request if and only if it lacks none of the requested. */
  lemma AnswersExactly(content: Content, table: Table, st: State, msg: UpdateRequest)
    requires Named(content) && Replica(content, table, st) && Ordered(msg.ranges)
    ensures var t := HandleUpdateRequest(st, msg);
            && (AllComplete(st.log, msg.ranges) ==> exists reply :: AnswersWith(content, st, msg, t, reply))
            && (!AllComplete(st.log, msg.ranges) ==> t.ucast == st.ucast)
  {
    var log := Touched(st.log, msg.ranges.Keys);
    TouchedSame(st.log, msg.ranges.Keys);
    SameLog(content, st.log, log);
    IncompleteIsEmpty(st.log, msg.ranges);
    if AllComplete(st.log, msg.ranges) {
      StillComplete(st.log, log, msg.ranges);
      CommandsSupply(content, log, msg.ranges);
      var reply := UpdateReply(st.id, msg.batchID, msg.ranges, ClientCommands(log, msg.ranges));
      assert AnswersWith(content, st, msg, HandleUpdateRequest(st, msg), reply);
    }
  }

  /** Whenever the requester handles an answer, the batch is marked and the process goes on. */
  lemma AnswerMarks(content: Content, table: Table, s: System, q: ID, reply: UpdateReply, order: seq<Client>)
    requires Named(content) && Inv(content, table, s) && Follows(table, s)
    requires Enabled(content, s, q, UpdateReplied(reply, order))
    ensures var s' := Apply(s, q, UpdateReplied(reply, order));
            !s'.died && q in s'.reps && StateAt(s'.reps[q].states, reply.batchID).execute
  {
    var st, b := s.reps[q], reply.batchID;
    EnabledAcceptable(content, table, s, q, UpdateReplied(reply, order));
    ReplyOk(content, table, st, reply, order, UpdateReplied(reply, order));
    if !StateAt(st.states, b).execute {
      var log := LoggedFor(st.log, reply.values, order);
      ExecuteOnly(Refilled(st, b, log, StateAt(st.states, b).executeRanges.Keys), b);
    }
  }

  /** After the answer has been sent it may be handled by the replica that asked. */
  ghost predicate AnswerMayCome(content: Content, s: System, q: ID, b: nat, reply: UpdateReply) {
    && reply.batchID == b
    && forall order :: Enumerates(order, reply.values.Keys) ==> Enabled(content, s, q, UpdateReplied(reply, order))
  }

  lemma SentAnswerMayCome(content: Content, s: System, p: ID, q: ID, b: nat, reply: UpdateReply)
    requires p in s.reps && q in s.reps && !s.died && reply.batchID == b
    requires Packet(q, UpdateReplyMsg(reply)) in s.reps[p].ucast
    ensures AnswerMayCome(content, s, q, b, reply)
  {
    assert Sent(s, q, UpdateReplyMsg(reply));
  }

  /**
   * Any replica that lacks none of the requested ranges answers a request that was
   * broadcast, and handling the answer marks the batch at the replica that asked.
   */
  lemma AskedIsAnswered(content: Content, table: Table, s: System, q: ID, msg: UpdateRequest, p: ID)
    requires Named(content) && Inv(content, table, s) && Follows(table, s) && q in s.reps && p in s.reps
    requires UpdateRequestMsg(msg) in s.reps[q].bcast && AllComplete(s.reps[p].log, msg.ranges)
    ensures Enabled(content, s, p, UpdateRequested(msg))
    ensures var s' := Apply(s, p, UpdateRequested(msg));
            && Inv(content, table, s')
            && exists reply :: AnswerMayCome(content, s', q, msg.batchID, reply)
  {
    assert BroadcastOk(table, s.reps[q], UpdateRequestMsg(msg));
    assert Sent(s, p, UpdateRequestMsg(msg));
    NextInv(content, table, s, p, UpdateRequested(msg));
    AnswersExactly(content, table, s.reps[p], msg);
    var s' := Apply(s, p, UpdateRequested(msg));
    var reply :| AnswersWith(content, s.reps[p], msg, s'.reps[p], reply);
    assert s'.reps[p].ucast[|s.reps[p].ucast|] == Packet(q, UpdateReplyMsg(reply));
    SentAnswerMayCome(content, s', p, q, msg.batchID, reply);
  }

  /** Handling the answer, with the clients' requests logged in any order, marks batch b at q. */
  ghost predicate Marks(content: Content, s: System, q: ID, b: nat, reply: UpdateReply) {
    forall order :: Enumerates(order, reply.values.Keys) ==>
      && Enabled(content, s, q, UpdateReplied(reply, order))
      && var s' := Apply(s, q, UpdateReplied(reply, order));
      && !s'.died && q in s'.reps && StateAt(s'.reps[q].states, b).execute
  }

  /** Two messages mark the batch: a request of q's that p may handle, and the answer that p then sends. */
  ghost predicate MarkedByTwoMessages(content: Content, s: System, q: ID, b: nat, p: ID) {
    exists msg, reply ::
      && Enabled(content, s, p, UpdateRequested(msg)) && msg.id == q && msg.batchID == b
      && Marks(content, Apply(s, p, UpdateRequested(msg)), q, b, reply)
  }

  lemma StillFollows(table: Table, s: System, p: ID, msg: UpdateRequest)
    requires p in s.reps && Follows(table, s)
    ensures Follows(table, Apply(s, p, UpdateRequested(msg)))
  {
    assert HandleUpdateRequest(s.reps[p], msg).bcast == s.reps[p].bcast;
  }

  lemma AnswerWillMark(content: Content, table: Table, s: System, q: ID, b: nat, reply: UpdateReply)
    requires Named(content) && Inv(content, table, s) && Follows(table, s)
    requires AnswerMayCome(content, s, q, b, reply)
    ensures Marks(content, s, q, b, reply)
  {
    forall order | Enumerates(order, reply.values.Keys)
      ensures Enabled(content, s, q, UpdateReplied(reply, order))
      ensures var s' := Apply(s, q, UpdateReplied(reply, order));
              !s'.died && q in s'.reps && StateAt(s'.reps[q].states, b).execute
    {
      AnswerMarks(content, table, s, q, reply, order);
    }
  }

  /**
   * In every state of every run whose commits follow one table: a committed batch that a
   * replica cannot mark for want of requests is marked by two messages, through any replica
   * that has the requests of the batch.
   */
  lemma UpdateBringsUpToDate(content: Content, table: Table, tr: seq<System>, q: ID, b: nat, p: ID)
    requires Named(content) && Run(content, tr) && Follows(table, tr[|tr| - 1])
    requires q in tr[|tr| - 1].reps && p in tr[|tr| - 1].reps
    requires var st := StateAt(tr[|tr| - 1].reps[q].states, b);
             !st.execute && st.executeRanges != map[] && AllComplete(tr[|tr| - 1].reps[p].log, st.executeRanges)
    ensures MarkedByTwoMessages(content, tr[|tr| - 1], q, b, p)
  {
    var s := tr[|tr| - 1];
    RunInv(content, table, tr);
    AlwaysAsked(content, tr, q, b);
    var k: nat :| k < |tr| - 1 && AskedAt(content, tr[k], tr[k + 1], q, b, s.reps[q]);
    var ranges := StateAt(s.reps[q].states, b).executeRanges;
    var asked :| ExactlyMissing(tr[k].reps[q].log, ranges, asked) && asked != map[]
                 && UpdateRequestMsg(UpdateRequest(q, b, asked)) in s.reps[q].bcast;
    RequestMarks(content, table, s, q, b, p, asked);
  }

  lemma RequestMarks(content: Content, table: Table, s: System, q: ID, b: nat, p: ID, asked: RangeMap)
    requires Named(content) && Inv(content, table, s) && Follows(table, s) && q in s.reps && p in s.reps
    requires UpdateRequestMsg(UpdateRequest(q, b, asked)) in s.reps[q].bcast && AllComplete(s.reps[p].log, asked)
    ensures MarkedByTwoMessages(content, s, q, b, p)
  {
    var msg := UpdateRequest(q, b, asked);
    AskedIsAnswered(content, table, s, q, msg, p);
    var s' := Apply(s, p, UpdateRequested(msg));
    var reply :| AnswerMayCome(content, s', q, b, reply);
    StillFollows(table, s, p, msg);
    AnswerWillMark(content, table, s', q, b, reply);
  }
}
