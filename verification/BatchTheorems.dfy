/** What BatchPaxos guarantees: replicas agree, nothing is missing, no batch is left over. */
module BatchTheorems {
  import opened Wrappers
  import opened Group
  import opened Batching
  import opened BatchPoints
  import opened BatchQuorum
  import opened BatchAcceptors
  import opened BatchFacts
  import opened BatchSafety

  // ----- Replicas agree

  lemma OneBatchMore(content: Content, table: Table, n: nat)
    ensures History(content, table, n) <= History(content, table, n + 1)
  {
  }

  lemma {:induction false} HistoryGrows(content: Content, table: Table, m: nat, n: nat)
    requires m <= n
    ensures History(content, table, m) <= History(content, table, n)
  {
    if m < n {
      HistoryGrows(content, table, m, n - 1);
      OneBatchMore(content, table, n - 1);
    }
  }

  /** What two replicas have executed never differs but in length, whatever they have received and when. */
  lemma ReplicasAgree(content: Content, table: Table, tr: seq<System>, p: ID, q: ID)
    requires Named(content) && Run(content, tr) && Follows(table, tr[|tr| - 1])
    requires p in tr[|tr| - 1].reps && q in tr[|tr| - 1].reps
    ensures var a, b := tr[|tr| - 1].reps[p].executed, tr[|tr| - 1].reps[q].executed;
            a <= b || b <= a
  {
    RunInv(content, table, tr);
    var m, n := tr[|tr| - 1].reps[p].batchAru, tr[|tr| - 1].reps[q].batchAru;
    if m <= n {
      HistoryGrows(content, table, m, n);
    } else {
      HistoryGrows(content, table, n, m);
    }
  }

  /** A replica executes exactly the committed batches below its counter, with nothing missing. */
  lemma ExecutesTheTable(content: Content, table: Table, tr: seq<System>, q: ID)
    requires Named(content) && Run(content, tr) && Follows(table, tr[|tr| - 1]) && q in tr[|tr| - 1].reps
    ensures var st := tr[|tr| - 1].reps[q];
            && st.executed == History(content, table, st.batchAru)
            && Genuine(content, st.executed)
    ensures !tr[|tr| - 1].died
  {
    RunInv(content, table, tr);
    HistoryGenuine(content, table, tr[|tr| - 1].reps[q].batchAru);
  }

  lemma {:induction false} RangeGenuine(content: Content, c: Client, start: nat, end: nat)
    requires Named(content) && end <= MAX_UINT32
    ensures Genuine(content, RangeContent(content, c, start, end))
    decreases end
  {
    if start < end {
      RangeGenuine(content, c, start, end - 1);
    }
  }

  lemma {:induction false} ListedGenuine(content: Content, ranges: RangeMap, ids: seq<Client>)
    requires Named(content) && forall c :: c in ids ==> c in ranges
    ensures Genuine(content, ListedContent(content, ranges, ids))
    decreases |ids|
  {
    if ids != [] {
      var n := |ids| - 1;
      ListedGenuine(content, ranges, ids[..n]);
      RangeGenuine(content, ids[n], ranges[ids[n]].start, ranges[ids[n]].stop + 1);
    }
  }

  lemma {:induction false} HistoryGenuine(content: Content, table: Table, n: nat)
    requires Named(content)
    ensures Genuine(content, History(content, table, n))
  {
    if n > 0 {
      HistoryGenuine(content, table, n - 1);
      ListedGenuine(content, table(n - 1), SortedKeys(table(n - 1).Keys));
    }
  }

  // ----- Replicas do not idle

  lemma {:induction false} AdvanceIsDone(st: State)
    ensures !Due(TryToAdvance(st))
    decreases |Ready(st.states)|
  {
    if Due(st) {
      ReadyShrinks(st);
      AdvanceIsDone(ExecuteOne(st));
    }
  }

  lemma CommitNotDue(st: State, msg: BatchCommit)
    requires !Due(st)
    ensures !Due(HandleCommit(st, msg))
  {
    var b := msg.batchID;
    var t := Recorded(st, b, msg.ranges);
    if Incomplete(st.log, msg.ranges) == map[] {
      AdvanceIsDone(t.(states := t.states[b := StateAt(t.states, b).(execute := true)]));
    }
  }

  lemma ReplyNotDue(st: State, msg: UpdateReply, order: seq<Client>)
    requires !Due(st) && Enumerates(order, msg.values.Keys) && HandleUpdateReply(st, msg, order).Ok?
    ensures !Due(HandleUpdateReply(st, msg, order).value)
  {
    var b := msg.batchID;
    if !StateAt(st.states, b).execute {
      var log := LoggedFor(st.log, msg.values, order);
      var t := Refilled(st, b, log, StateAt(st.states, b).executeRanges.Keys);
      AdvanceIsDone(t.(states := t.states[b := StateAt(t.states, b).(execute := true)]));
    }
  }

  lemma StepNotDue(st: State, ev: Event)
    requires !Due(st) && Orderly(ev) && Step(st, ev).Ok?
    ensures !Due(Step(st, ev).value)
  {
    match ev
    case Learned(msg) => LearnKeeps(st, msg);
    case Committed(msg) => CommitNotDue(st, msg);
    case UpdateReplied(msg, order) => ReplyNotDue(st, msg, order);
    case _ =>
  }

  /** No replica rests with a batch that it could execute. */
  lemma {:induction false} NoBatchLeftDue(content: Content, tr: seq<System>, q: ID)
    requires Run(content, tr) && q in tr[|tr| - 1].reps
    ensures !Due(tr[|tr| - 1].reps[q])
    decreases |tr|
  {
    var n := |tr| - 1;
    if n == 0 {
      assert Fresh(q, tr[0].reps[q]);
    } else {
      assert Next(content, tr[n - 1], tr[n - 1 + 1]);
      var p, ev :| Enabled(content, tr[n - 1], p, ev) && tr[n] == Apply(tr[n - 1], p, ev);
      RunPrefix(content, tr);
      NoBatchLeftDue(content, tr[..n], q);
      if p == q && Step(tr[n - 1].reps[p], ev).Ok? {
        StepNotDue(tr[n - 1].reps[p], ev);
      }
    }
  }

  // ----- One leader commits every batch once

  function Commits(bcast: seq<Message>): seq<BatchCommit>
    decreases |bcast|
  {
    if bcast == [] then []
    else
      var n := |bcast| - 1;
      Commits(bcast[..n]) + if bcast[n].CommitMsg? then [bcast[n].commit] else []
  }

  function RangesOf(commits: seq<BatchCommit>): (r: seq<RangeMap>) {
    seq(|commits|, (k: nat) requires k < |commits| => commits[k].ranges)
  }

  lemma CommitsNext(bcast: seq<Message>, msg: Message)
    ensures Commits(bcast + [msg]) == Commits(bcast) + if msg.CommitMsg? then [msg.commit] else []
  {
    assert (bcast + [msg])[..|bcast|] == bcast;
  }

  lemma {:induction false} CommitsMember(bcast: seq<Message>, m: BatchCommit)
    ensures m in Commits(bcast) <==> CommitMsg(m) in bcast
    decreases |bcast|
  {
    if bcast != [] {
      var n := |bcast| - 1;
      CommitsMember(bcast[..n], m);
      assert bcast == bcast[..n] + [bcast[n]];
    }
  }

  ghost predicate Pointing(points: seq<BatchPoint>, commits: seq<BatchCommit>) {
    exists nbps :: Pointed(nbps) == (points, RangesOf(commits))
  }

  /** Each batch is committed at most once, with the ranges of successive batch points. */
  ghost predicate Leading(st: State) {
    var commits := Commits(st.bcast);
    && (forall k: nat :: k < |commits| ==>
          commits[k].id == st.id && StateAt(st.states, commits[k].batchID).learnsNotified)
    && (forall j: nat, k: nat :: j < k < |commits| ==> commits[j].batchID != commits[k].batchID)
    && Pointing(st.points, commits)
  }

  ghost predicate SameLeading(st: State, t: State) {
    && t.id == st.id && t.points == st.points && Commits(t.bcast) == Commits(st.bcast)
    && forall b: nat :: StateAt(t.states, b).learnsNotified == StateAt(st.states, b).learnsNotified
  }

  lemma SendBatchSame(st: State)
    ensures SameLeading(st, SendBatch(st))
  {
  }

  lemma ExecuteSame(st: State, t: State, b: nat)
    requires SameLeading(st, t)
    ensures SameLeading(st, Execute(t, b))
  {
    ExecuteOnly(t, b);
    forall k: nat
      ensures StateAt(Execute(t, b).states, k).learnsNotified == StateAt(t.states, k).learnsNotified
    {
    }
  }

  lemma CommitSame(st: State, msg: BatchCommit)
    ensures SameLeading(st, HandleCommit(st, msg))
  {
    var b := msg.batchID;
    var t := Recorded(st, b, msg.ranges);
    forall k: nat
      ensures StateAt(t.states, k).learnsNotified == StateAt(st.states, k).learnsNotified
    {
    }
    var inc := Incomplete(st.log, msg.ranges);
    if inc == map[] {
      ExecuteSame(st, t, b);
    } else {
      CommitsNext(st.bcast, UpdateRequestMsg(UpdateRequest(t.id, b, inc)));
    }
  }

  lemma ReplySame(st: State, msg: UpdateReply, order: seq<Client>)
    requires Enumerates(order, msg.values.Keys) && HandleUpdateReply(st, msg, order).Ok?
    ensures SameLeading(st, HandleUpdateReply(st, msg, order).value)
  {
    var b := msg.batchID;
    assert forall k: nat :: StateAt(Touch(st, b).states, k) == StateAt(st.states, k);
    if !StateAt(st.states, b).execute {
      var log := LoggedFor(st.log, msg.values, order);
      ExecuteSame(st, Refilled(st, b, log, StateAt(st.states, b).executeRanges.Keys), b);
    }
  }

  lemma StepSame(st: State, ev: Event)
    requires Orderly(ev) && Step(st, ev).Ok? && !ev.Learned?
    ensures SameLeading(st, Step(st, ev).value)
  {
    match ev
    case ClientRequest(val) =>
      SendBatchSame(st.(log := Logged(st.log, val.cr[0]), currNumReq := (st.currNumReq + 1) % st.batchMaxReq));
    case Committed(msg) => CommitSame(st, msg);
    case UpdateRequested(_) =>
    case UpdateReplied(msg, order) => ReplySame(st, msg, order);
    case BatchTimeout => SendBatchSame(st);
    case Trust(_) =>
  }

  lemma PointingNext(points: seq<BatchPoint>, commits: seq<BatchCommit>, nbp: BatchPoint, commit: BatchCommit)
    requires Pointing(points, commits) && commit.ranges == Tried(points, nbp).2
    ensures Pointing(Tried(points, nbp).0, commits + [commit])
  {
    var nbps :| Pointed(nbps) == (points, RangesOf(commits));
    PointedNext(nbps, nbp);
    assert RangesOf(commits + [commit]) == RangesOf(commits) + [commit.ranges];
    assert Pointed(nbps + [nbp]) == (Tried(points, nbp).0, RangesOf(commits + [commit]));
  }

  /** A batch that was not notified before gets its commit. */
  lemma CommitLeads(st: State, t: State, nbp: BatchPoint, commit: BatchCommit)
    requires Leading(st) && t.id == st.id == commit.id
    requires commit.ranges == Tried(st.points, nbp).2 && t.points == Tried(st.points, nbp).0
    requires Commits(t.bcast) == Commits(st.bcast) + [commit]
    requires !StateAt(st.states, commit.batchID).learnsNotified
    requires StateAt(t.states, commit.batchID).learnsNotified
    requires forall k: nat :: StateAt(st.states, k).learnsNotified ==> StateAt(t.states, k).learnsNotified
    ensures Leading(t)
  {
    PointingNext(st.points, Commits(st.bcast), nbp, commit);
  }

  lemma CommitBatchLeads(st: State, b: nat, state: BatchState)
    requires Leading(st) && state == StateAt(st.states, b).(learns := state.learns) && !state.learnsNotified
    ensures Leading(CommitBatch(st, b, state))
  {
    var nbp := Intersection(state.learns);
    var commit := BatchCommit(st.id, b, Tried(st.points, nbp).2);
    CommitsNext(st.bcast, CommitMsg(commit));
    CommitLeads(st, CommitBatch(st, b, state), nbp, commit);
  }

  lemma LearnLeads(st: State, msg: BatchLearn)
    requires Leading(st)
    ensures Leading(HandleLearn(st, msg))
  {
    if NewQuorum(st, Learnt(st, msg)) {
      CommitBatchLeads(st, msg.batchID, Learnt(st, msg));
    } else {
      assert SameLeading(st, HandleLearn(st, msg));
    }
  }

  lemma StepLeads(st: State, ev: Event)
    requires Leading(st) && Orderly(ev) && Step(st, ev).Ok?
    ensures Leading(Step(st, ev).value)
  {
    if ev.Learned? {
      LearnLeads(st, ev.learn);
    } else {
      StepSame(st, ev);
    }
  }

  ghost predicate AllLeading(s: System) {
    forall q :: q in s.reps ==> s.reps[q].id == q && Leading(s.reps[q])
  }

  lemma InitLeads(s: System)
    requires Init(s)
    ensures AllLeading(s)
  {
    forall q | q in s.reps
      ensures s.reps[q].id == q && Leading(s.reps[q])
    {
      assert Fresh(q, s.reps[q]);
      assert RangesOf([]) == [] && Pointed([]) == ([], []);
    }
  }

  lemma StepKeepsID(st: State, ev: Event)
    requires Orderly(ev) && Step(st, ev).Ok?
    ensures Step(st, ev).value.id == st.id
  {
    if !ev.Learned? {
      StepSame(st, ev);
    }
  }

  lemma {:induction false} RunLeads(content: Content, tr: seq<System>)
    requires Run(content, tr)
    ensures AllLeading(tr[|tr| - 1])
    decreases |tr|
  {
    var n := |tr| - 1;
    if n == 0 {
      InitLeads(tr[0]);
    } else {
      assert Next(content, tr[n - 1], tr[n - 1 + 1]);
      var q, ev :| Enabled(content, tr[n - 1], q, ev) && tr[n] == Apply(tr[n - 1], q, ev);
      RunPrefix(content, tr);
      RunLeads(content, tr[..n]);
      if Step(tr[n - 1].reps[q], ev).Ok? {
        StepLeads(tr[n - 1].reps[q], ev);
        StepKeepsID(tr[n - 1].reps[q], ev);
      }
    }
  }

  /** All commits ever sent come from one replica. */
  ghost predicate OneLeader(s: System, leader: ID) {
    && leader in s.reps
    && forall q, msg :: q in s.reps && msg in s.reps[q].bcast && msg.CommitMsg? ==> msg.commit.id == leader
  }

  function RangesFor(commits: seq<BatchCommit>, b: nat): RangeMap
    decreases |commits|
  {
    if commits == [] then map[]
    else
      var n := |commits| - 1;
      if commits[n].batchID == b then commits[n].ranges else RangesFor(commits[..n], b)
  }

  function TableOf(commits: seq<BatchCommit>): Table {
    (b: nat) => RangesFor(commits, b)
  }

  lemma {:induction false} CommittedOnce(commits: seq<BatchCommit>, k: nat)
    requires k < |commits|
    requires forall i: nat, j: nat :: i < j < |commits| ==> commits[i].batchID != commits[j].batchID
    ensures RangesFor(commits, commits[k].batchID) == commits[k].ranges
    decreases |commits|
  {
    var n := |commits| - 1;
    if k < n {
      CommittedOnce(commits[..n], k);
    }
  }

  /** A single leader gives every batch one commit, so there is a table that all commits follow. */
  lemma OneLeaderGivesTable(content: Content, tr: seq<System>, leader: ID)
    requires Run(content, tr) && OneLeader(tr[|tr| - 1], leader)
    ensures Follows(TableOf(Commits(tr[|tr| - 1].reps[leader].bcast)), tr[|tr| - 1])
  {
    RunLeads(content, tr);
    var s := tr[|tr| - 1];
    var commits := Commits(s.reps[leader].bcast);
    forall q, msg | q in s.reps && msg in s.reps[q].bcast && msg.CommitMsg?
      ensures msg.commit.ranges == TableOf(commits)(msg.commit.batchID)
    {
      CommitsMember(s.reps[q].bcast, msg.commit);
      assert Leading(s.reps[q]);
      var k: nat :| k < |Commits(s.reps[q].bcast)| && Commits(s.reps[q].bcast)[k] == msg.commit;
      assert q == leader;
      CommittedOnce(commits, k);
    }
  }

  /** With one leader replicas agree, whatever is lost, reordered or repeated. */
  lemma ReplicasAgreeUnderOneLeader(content: Content, tr: seq<System>, leader: ID, p: ID, q: ID)
    requires Named(content) && Run(content, tr) && OneLeader(tr[|tr| - 1], leader)
    requires p in tr[|tr| - 1].reps && q in tr[|tr| - 1].reps
    ensures var a, b := tr[|tr| - 1].reps[p].executed, tr[|tr| - 1].reps[q].executed;
            a <= b || b <= a
  {
    OneLeaderGivesTable(content, tr, leader);
    ReplicasAgree(content, TableOf(Commits(tr[|tr| - 1].reps[leader].bcast)), tr, p, q);
  }

  // ----- The update protocol relies on the commit coming first

  /**
   * A reply for a batch without a recorded commit marks the batch as executed with
   * nothing in it; a commit that comes later executes none of it.
   */
  lemma ReplyBeforeCommitSkips(st: State, msg: UpdateReply, order: seq<Client>)
    requires Enumerates(order, msg.values.Keys)
    requires StateAt(st.states, msg.batchID) == NEW_STATE && msg.batchID == st.batchAru
    ensures var r := HandleUpdateReply(st, msg, order);
            && r.Ok? && r.value.batchAru > st.batchAru
            && StateAt(r.value.states, msg.batchID).executed
            && StateAt(r.value.states, msg.batchID).executeRanges == map[]
  {
    var b := msg.batchID;
    var log := LoggedFor(st.log, msg.values, order);
    IncompleteIsEmpty(log, map[]);
    var t := Refilled(st, b, log, {});
    var u := t.(states := t.states[b := StateAt(t.states, b).(execute := true)]);
    var v := ExecuteOne(u);
    AdvanceOnly(v);
    AdvanceAru(v);
    ExecuteOnly(t, b);
    assert StateAt(v.states, b).executed;
    KeepsExecuted(v, b);
  }

  lemma {:induction false} AdvanceAru(st: State)
    ensures TryToAdvance(st).batchAru >= st.batchAru
    decreases |Ready(st.states)|
  {
    if Due(st) {
      ReadyShrinks(st);
      AdvanceAru(ExecuteOne(st));
    }
  }

  lemma {:induction false} KeepsExecuted(st: State, b: nat)
    requires StateAt(st.states, b).executed
    ensures StateAt(TryToAdvance(st).states, b).executed
    decreases |Ready(st.states)|
  {
    if Due(st) {
      ReadyShrinks(st);
      KeepsExecuted(ExecuteOne(st), b);
    }
  }
}
