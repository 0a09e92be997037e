/**
 * BatchPaxos replicas exchanging messages. Any message ever sent may be handled any
 * number of times or never; timeouts, trust messages and client requests may come at
 * any time. A request handled twice has the same contents.
 */
module BatchSafety {
  import opened Wrappers
  import opened Group
  import opened Batching
  import opened BatchPoints
  import opened BatchQuorum
  import opened BatchAcceptors
  import opened BatchFacts

  datatype System = System(reps: map<ID, State>, died: bool)

  predicate Fresh(q: ID, st: State) {
    && st.batchMaxReq > 0
    && st == State(q, st.leader, st.batchMaxReq, 0, map[], map[], 0, [], st.quorumSize, map[], 0, [], [], [])
  }

  ghost predicate Init(s: System) {
    && !s.died
    && forall q :: q in s.reps ==> Fresh(q, s.reps[q])
  }

  ghost predicate Sent(s: System, dest: ID, msg: Message) {
    exists q :: q in s.reps && (msg in s.reps[q].bcast || Packet(dest, msg) in s.reps[q].ucast)
  }

  /** An application value with a request of the client's making. */
  ghost predicate HoldsRequest(content: Content, val: ClientValue) {
    val.App? && |val.cr| > 0 && val.cr[0] == content(val.cr[0].id, val.cr[0].seqNo)
  }

  ghost predicate Enabled(content: Content, s: System, q: ID, ev: Event) {
    && q in s.reps && !s.died && Orderly(ev)
    && match ev
       case ClientRequest(val) => HoldsRequest(content, val)
       case Learned(msg) => Sent(s, q, LearnMsg(msg))
       case Committed(msg) => Sent(s, q, CommitMsg(msg))
       case UpdateRequested(msg) => Sent(s, q, UpdateRequestMsg(msg))
       case UpdateReplied(msg, _) => Sent(s, q, UpdateReplyMsg(msg))
       case BatchTimeout => true
       case Trust(_) => true
  }

  ghost function Apply(s: System, q: ID, ev: Event): System
    requires q in s.reps && Orderly(ev)
  {
    match Step(s.reps[q], ev)
    case Panic => s.(died := true)
    case Ok(st) => s.(reps := s.reps[q := st])
  }

  ghost predicate Next(content: Content, s: System, s': System) {
    exists q, ev :: Enabled(content, s, q, ev) && s' == Apply(s, q, ev)
  }

  ghost predicate Run(content: Content, tr: seq<System>) {
    tr != [] && Init(tr[0]) && forall k: nat :: k < |tr| - 1 ==> Next(content, tr[k], tr[k + 1])
  }

  /** Every commit that was ever sent has the ranges of the table. */
  ghost predicate Follows(table: Table, s: System) {
    forall q, msg :: q in s.reps && msg in s.reps[q].bcast && msg.CommitMsg? ==>
      msg.commit.ranges == table(msg.commit.batchID)
  }

  // ----- Messages

  predicate Ordered(ranges: RangeMap) {
    forall c :: c in ranges ==> ranges[c].start <= ranges[c].stop
  }

  /** The replica has seen the commit, and whatever it misses of the batch is among these ranges. */
  ghost predicate Requested(table: Table, st: State, b: nat, ranges: RangeMap) {
    && StateAt(st.states, b).executeRanges == table(b)
    && (forall c :: c in ranges ==> c in table(b) && ranges[c] == table(b)[c])
    && forall c :: c in table(b) ==> c in ranges || Complete(st.log, c, table(b)[c])
  }

  /** Genuine requests, among them all of the range. */
  ghost predicate Covers(content: Content, c: Client, r: ClientRange, reqs: seq<Request>) {
    Genuine(content, reqs) && forall i: Seq :: r.start <= i <= r.stop ==> content(c, i) in reqs
  }

  ghost predicate Supplies(content: Content, ranges: RangeMap, values: UpdateValueMap) {
    values.Keys == ranges.Keys && forall c :: c in ranges ==> Covers(content, c, ranges[c], values[c])
  }

  ghost predicate BroadcastOk(table: Table, st: State, msg: Message) {
    match msg
    case CommitMsg(m) => m.id == st.id && Ordered(m.ranges)
    case UpdateRequestMsg(m) => m.id == st.id && Ordered(m.ranges) && Requested(table, st, m.batchID, m.ranges)
    case _ => false
  }

  ghost predicate PacketOk(content: Content, table: Table, s: System, p: Packet) {
    match p.data
    case LearnMsg(_) => true
    case UpdateReplyMsg(m) =>
      && Supplies(content, m.ranges, m.values)
      && (p.dest in s.reps ==> Requested(table, s.reps[p.dest], m.batchID, m.ranges))
    case _ => false
  }

  ghost predicate Inv(content: Content, table: Table, s: System) {
    && !s.died
    && (forall q :: q in s.reps ==>
          s.reps[q].id == q && s.reps[q].batchMaxReq > 0 && Replica(content, table, s.reps[q]))
    && (forall q, msg :: q in s.reps && msg in s.reps[q].bcast ==> BroadcastOk(table, s.reps[q], msg))
    && (forall q, p :: q in s.reps && p in s.reps[q].ucast ==> PacketOk(content, table, s, p))
  }

  // ----- What one step of one replica does

  /** Requests, committed ranges and sent messages stay. */
  ghost predicate Later(table: Table, st: State, st': State) {
    && st'.id == st.id && st'.batchMaxReq == st.batchMaxReq
    && LogGrows(st.log, st'.log)
    && st.bcast <= st'.bcast && st.ucast <= st'.ucast
    && forall b: nat :: StateAt(st.states, b).executeRanges == table(b) ==> StateAt(st'.states, b).executeRanges == table(b)
  }

  lemma RequestedLater(table: Table, st: State, st': State, b: nat, ranges: RangeMap)
    requires Later(table, st, st') && Requested(table, st, b, ranges)
    ensures Requested(table, st', b, ranges)
  {
  }

  /** What a message must satisfy when it is handled. */
  ghost predicate Acceptable(content: Content, table: Table, st: State, ev: Event) {
    match ev
    case ClientRequest(val) => HoldsRequest(content, val)
    case Committed(m) => Ordered(m.ranges) && m.ranges == table(m.batchID)
    case UpdateRequested(m) => Ordered(m.ranges)
    case UpdateReplied(m, _) => Supplies(content, m.ranges, m.values) && Requested(table, st, m.batchID, m.ranges)
    case _ => true
  }

  /** The messages a step adds. */
  ghost predicate AddsOk(content: Content, table: Table, st: State, st': State, ev: Event) {
    && (forall k: nat :: |st.bcast| <= k < |st'.bcast| ==> BroadcastOk(table, st', st'.bcast[k]))
    && (forall k: nat :: |st.ucast| <= k < |st'.ucast| ==>
          match st'.ucast[k].data
          case LearnMsg(_) => true
          case UpdateReplyMsg(m) =>
            && ev.UpdateRequested?
            && st'.ucast[k].dest == ev.request.id && m.batchID == ev.request.batchID && m.ranges == ev.request.ranges
            && Supplies(content, m.ranges, m.values)
          case _ => false)
  }

  ghost predicate StepOk(content: Content, table: Table, st: State, st': State, ev: Event) {
    Replica(content, table, st') && Later(table, st, st') && AddsOk(content, table, st, st', ev)
  }

  lemma SameLogReplica(content: Content, table: Table, st: State, log: ClientLog)
    requires Replica(content, table, st) && LogGrows(st.log, log) && LogOk(content, log)
    ensures Replica(content, table, st.(log := log))
  {
    forall b: nat | StateAt(st.states, b).execute
      ensures AllComplete(log, table(b))
    {
      forall c | c in table(b)
        ensures Complete(log, c, table(b)[c])
      {
        CompleteGrows(st.log, log, c, table(b)[c]);
      }
    }
  }

  lemma SendBatchOk(content: Content, table: Table, st: State, ev: Event)
    requires Replica(content, table, st)
    ensures StepOk(content, table, st, SendBatch(st), ev)
  {
  }

  lemma LaterTwice(table: Table, a: State, b: State, c: State)
    requires Later(table, a, b) && Later(table, b, c)
    ensures Later(table, a, c)
  {
  }

  lemma LoggedOk(content: Content, table: Table, st: State, req: Request, n: nat)
    requires Replica(content, table, st) && req == content(req.id, req.seqNo)
    ensures var t := st.(log := Logged(st.log, req), currNumReq := n);
            Replica(content, table, t) && Later(table, st, t)
  {
    LoggedGrows(content, st.log, req);
    SameLogReplica(content, table, st, Logged(st.log, req));
  }

  lemma SendBatchAfter(content: Content, table: Table, st: State, t: State, ev: Event)
    requires Replica(content, table, t) && Later(table, st, t) && t.bcast == st.bcast && t.ucast == st.ucast
    ensures StepOk(content, table, st, t, ev) && StepOk(content, table, st, SendBatch(t), ev)
  {
    SendBatchOk(content, table, t, ev);
    LaterTwice(table, st, t, SendBatch(t));
  }

  ghost predicate Counted(st: State, req: Request, n: nat, st': State) {
    var t := st.(log := Logged(st.log, req), currNumReq := n);
    st' == t || st' == SendBatch(t)
  }

  lemma RequestCases(st: State, req: Request)
    requires st.batchMaxReq > 0
    ensures HandleRequest(st, req).Ok? && exists n: nat :: Counted(st, req, n, HandleRequest(st, req).value)
  {
    assert Counted(st, req, (st.currNumReq + 1) % st.batchMaxReq, HandleRequest(st, req).value);
  }

  lemma RequestOk(content: Content, table: Table, st: State, req: Request, ev: Event)
    requires Replica(content, table, st) && st.batchMaxReq > 0 && req == content(req.id, req.seqNo)
    ensures HandleRequest(st, req).Ok? && StepOk(content, table, st, HandleRequest(st, req).value, ev)
  {
    RequestCases(st, req);
    var n: nat :| Counted(st, req, n, HandleRequest(st, req).value);
    var t := st.(log := Logged(st.log, req), currNumReq := n);
    LoggedOk(content, table, st, req, n);
    SendBatchAfter(content, table, st, t, ev);
  }

  lemma TriedOrdered(points: seq<BatchPoint>, nbp: BatchPoint)
    ensures Ordered(Tried(points, nbp).2)
  {
  }

  /** The two states agree on everything but learns, batch points and messages. */
  ghost predicate SameExecution(st: State, t: State) {
    && t.id == st.id && t.batchMaxReq == st.batchMaxReq
    && t.log == st.log && t.batchAru == st.batchAru && t.executed == st.executed
    && forall b: nat ::
         && StateAt(t.states, b).execute == StateAt(st.states, b).execute
         && StateAt(t.states, b).executed == StateAt(st.states, b).executed
         && StateAt(t.states, b).executeRanges == StateAt(st.states, b).executeRanges
  }

  lemma SameExecutionOk(content: Content, table: Table, st: State, t: State)
    requires Replica(content, table, st) && SameExecution(st, t) && st.bcast <= t.bcast && st.ucast <= t.ucast
    ensures Replica(content, table, t) && Later(table, st, t)
  {
  }

  lemma LearnKeeps(st: State, msg: BatchLearn)
    ensures var t := HandleLearn(st, msg);
            && SameExecution(st, t) && t.ucast == st.ucast
            && (t.bcast == st.bcast ||
                exists ranges :: t.bcast == st.bcast + [CommitMsg(BatchCommit(st.id, msg.batchID, ranges))] && Ordered(ranges))
  {
    if NewQuorum(st, Learnt(st, msg)) {
      CommitBatchKeeps(st, msg.batchID, Learnt(st, msg));
    }
  }

  lemma CommitBatchKeeps(st: State, b: nat, state: BatchState)
    requires state == StateAt(st.states, b).(learns := state.learns)
    ensures var t := CommitBatch(st, b, state);
            && SameExecution(st, t) && t.ucast == st.ucast
            && exists ranges :: t.bcast == st.bcast + [CommitMsg(BatchCommit(st.id, b, ranges))] && Ordered(ranges)
  {
    var ranges := Tried(st.points, Intersection(state.learns)).2;
    TriedOrdered(st.points, Intersection(state.learns));
    assert CommitBatch(st, b, state).bcast == st.bcast + [CommitMsg(BatchCommit(st.id, b, ranges))];
  }

  lemma LearnOk(content: Content, table: Table, st: State, msg: BatchLearn, ev: Event)
    requires Replica(content, table, st)
    ensures StepOk(content, table, st, HandleLearn(st, msg), ev)
  {
    var t := HandleLearn(st, msg);
    LearnKeeps(st, msg);
    SameExecutionOk(content, table, st, t);
  }

  /** The replica once the commit is on record. */
  ghost function Recorded(st: State, b: nat, ranges: RangeMap): State {
    st.(states := st.states[b := StateAt(st.states, b).(executeRanges := ranges)], log := Touched(st.log, ranges.Keys))
  }

  lemma RecordedOk(content: Content, table: Table, st: State, b: nat)
    requires Replica(content, table, st)
    ensures Replica(content, table, Recorded(st, b, table(b))) && Later(table, st, Recorded(st, b, table(b)))
    ensures StateAt(Recorded(st, b, table(b)).states, b).executeRanges == table(b)
  {
    var t := Recorded(st, b, table(b));
    TouchedSame(st.log, table(b).Keys);
    SameLog(content, st.log, t.log);
    SameLogReplica(content, table, st, t.log);
    forall k: nat
      ensures StateAt(t.states, k) ==
                if k == b then StateAt(st.states, b).(executeRanges := table(b)) else StateAt(st.states, k)
    {
    }
  }

  lemma ExecuteLater(content: Content, table: Table, st: State, t: State, b: nat)
    requires Later(table, st, t) && Replica(content, table, t)
    requires StateAt(t.states, b).executeRanges == table(b) && AllComplete(t.log, table(b))
    ensures Replica(content, table, Execute(t, b)) && Later(table, st, Execute(t, b))
    ensures Execute(t, b).bcast == t.bcast && Execute(t, b).ucast == t.ucast
  {
    ExecuteOk(content, table, t, b);
    ExecuteOnly(t, b);
    LaterTwice(table, st, t, Execute(t, b));
  }

  lemma AskOk(content: Content, table: Table, st: State, t: State, msg: UpdateRequest, ev: Event)
    requires Later(table, st, t) && Replica(content, table, t) && t.bcast == st.bcast && t.ucast == st.ucast
    requires msg.id == t.id && Ordered(msg.ranges) && Requested(table, t, msg.batchID, msg.ranges)
    ensures StepOk(content, table, st, t.(bcast := t.bcast + [UpdateRequestMsg(msg)]), ev)
  {
  }

  lemma CommitOk(content: Content, table: Table, st: State, msg: BatchCommit, ev: Event)
    requires Replica(content, table, st) && Ordered(msg.ranges) && msg.ranges == table(msg.batchID)
    ensures StepOk(content, table, st, HandleCommit(st, msg), ev)
  {
    var b := msg.batchID;
    var t := Recorded(st, b, msg.ranges);
    RecordedOk(content, table, st, b);
    IncompleteIsEmpty(st.log, msg.ranges);
    var inc := Incomplete(st.log, msg.ranges);
    if inc == map[] {
      StillComplete(st.log, t.log, msg.ranges);
      ExecuteLater(content, table, st, t, b);
    } else {
      StillMissing(table, st.log, t, b);
      AskOk(content, table, st, t, UpdateRequest(t.id, b, inc), ev);
    }
  }

  lemma StillComplete(log: ClientLog, log': ClientLog, ranges: RangeMap)
    requires LogGrows(log, log') && AllComplete(log, ranges)
    ensures AllComplete(log', ranges)
  {
    forall c | c in ranges
      ensures Complete(log', c, ranges[c])
    {
      CompleteGrows(log, log', c, ranges[c]);
    }
  }

  lemma StillMissing(table: Table, log: ClientLog, t: State, b: nat)
    requires StateAt(t.states, b).executeRanges == table(b) && LogGrows(log, t.log)
    ensures Requested(table, t, b, Incomplete(log, table(b)))
  {
    forall c | c in table(b) && c !in Incomplete(log, table(b))
      ensures Complete(t.log, c, table(b)[c])
    {
      CompleteGrows(log, t.log, c, table(b)[c]);
    }
  }

  lemma UpdateRequestOk(content: Content, table: Table, st: State, msg: UpdateRequest, ev: Event)
    requires Named(content) && Replica(content, table, st) && Ordered(msg.ranges) && ev == UpdateRequested(msg)
    ensures StepOk(content, table, st, HandleUpdateRequest(st, msg), ev)
  {
    var log := Touched(st.log, msg.ranges.Keys);
    TouchedSame(st.log, msg.ranges.Keys);
    SameLog(content, st.log, log);
    SameLogReplica(content, table, st, log);
    IncompleteIsEmpty(st.log, msg.ranges);
    if Incomplete(st.log, msg.ranges) == map[] {
      StillComplete(st.log, log, msg.ranges);
      CommandsSupply(content, log, msg.ranges);
    }
  }

  lemma CommandsSupply(content: Content, log: ClientLog, ranges: RangeMap)
    requires Named(content) && LogOk(content, log) && Ordered(ranges) && AllComplete(log, ranges)
    ensures Supplies(content, ranges, ClientCommands(log, ranges))
  {
    forall c | c in ranges
      ensures Covers(content, c, ranges[c], Commands(log, c, ranges[c]))
    {
      CommandsCover(content, log, c, ranges[c]);
    }
  }

  lemma CommandsCover(content: Content, log: ClientLog, c: Client, r: ClientRange)
    requires Named(content) && LogOk(content, log) && r.start <= r.stop && Complete(log, c, r)
    ensures Covers(content, c, r, Commands(log, c, r))
  {
    var cmds := Commands(log, c, r);
    forall k: nat | k < |cmds|
      ensures cmds[k] == content(c, r.start + k)
    {
      assert HasRequest(log, c, r.start + k);
    }
    forall i: Seq | r.start <= i <= r.stop
      ensures content(c, i) in cmds
    {
      assert cmds[i - r.start] == content(c, i);
    }
  }

  /** A reply completes the batch, so that the process does not end here. */
  lemma ReplyCompletes(content: Content, table: Table, st: State, msg: UpdateReply, order: seq<Client>)
    requires Named(content) && LogOk(content, st.log) && Enumerates(order, msg.values.Keys)
    requires Supplies(content, msg.ranges, msg.values) && Requested(table, st, msg.batchID, msg.ranges)
    ensures var log := LoggedFor(st.log, msg.values, order);
            LogGrows(st.log, log) && LogOk(content, log) && AllComplete(log, table(msg.batchID))
  {
    var log := LoggedFor(st.log, msg.values, order);
    var ranges := table(msg.batchID);
    LoggedForGrows(content, st.log, msg.values, order);
    forall c | c in ranges
      ensures Complete(log, c, ranges[c])
    {
      if c in msg.ranges {
        forall i: Seq | ranges[c].start <= i <= ranges[c].stop
          ensures HasRequest(log, c, i)
        {
          assert content(c, i) in msg.values[c];
          var k: nat :| k < |msg.values[c]| && msg.values[c][k] == content(c, i);
          assert HasRequest(log, msg.values[c][k].id, msg.values[c][k].seqNo);
        }
      } else {
        CompleteGrows(st.log, log, c, ranges[c]);
      }
    }
  }

  /** The replica once the commands of a reply are in its log. */
  ghost function Refilled(st: State, b: nat, log: ClientLog, keys: set<Client>): State {
    Touch(st, b).(log := Touched(log, keys))
  }

  lemma RefilledOk(content: Content, table: Table, st: State, b: nat, log: ClientLog, keys: set<Client>)
    requires Replica(content, table, st) && LogGrows(st.log, log) && LogOk(content, log)
    ensures var t := Refilled(st, b, log, keys);
            Replica(content, table, t) && Later(table, st, t) && StateAt(t.states, b) == StateAt(st.states, b)
  {
    TouchOk(content, table, st, b);
    TouchedSame(log, keys);
    SameLog(content, log, Touched(log, keys));
    SameLogReplica(content, table, Touch(st, b), Touched(log, keys));
  }

  lemma ReplyOk(content: Content, table: Table, st: State, msg: UpdateReply, order: seq<Client>, ev: Event)
    requires Named(content) && Replica(content, table, st) && Enumerates(order, msg.values.Keys)
    requires Supplies(content, msg.ranges, msg.values) && Requested(table, st, msg.batchID, msg.ranges)
    ensures HandleUpdateReply(st, msg, order).Ok?
    ensures StepOk(content, table, st, HandleUpdateReply(st, msg, order).value, ev)
  {
    var b := msg.batchID;
    if StateAt(st.states, b).execute {
      TouchOk(content, table, st, b);
    } else {
      var log := LoggedFor(st.log, msg.values, order);
      var t := Refilled(st, b, log, table(b).Keys);
      ReplyCompletes(content, table, st, msg, order);
      IncompleteIsEmpty(log, table(b));
      RefilledOk(content, table, st, b, log, table(b).Keys);
      TouchedSame(log, table(b).Keys);
      SameLog(content, log, t.log);
      StillComplete(log, t.log, table(b));
      ExecuteLater(content, table, st, t, b);
    }
  }

  lemma StepIsOk(content: Content, table: Table, st: State, ev: Event)
    requires Named(content) && Replica(content, table, st) && st.batchMaxReq > 0 && Orderly(ev)
    requires Acceptable(content, table, st, ev)
    ensures Step(st, ev).Ok? && StepOk(content, table, st, Step(st, ev).value, ev)
  {
    match ev
    case ClientRequest(val) => RequestOk(content, table, st, val.cr[0], ev);
    case Learned(msg) => LearnOk(content, table, st, msg, ev);
    case Committed(msg) => CommitOk(content, table, st, msg, ev);
    case UpdateRequested(msg) => UpdateRequestOk(content, table, st, msg, ev);
    case UpdateReplied(msg, order) => ReplyOk(content, table, st, msg, order, ev);
    case BatchTimeout => SendBatchOk(content, table, st, ev);
    case Trust(_) =>
  }

  // ----- Runs

  lemma InitInv(content: Content, table: Table, s: System)
    requires Init(s)
    ensures Inv(content, table, s)
  {
    forall q | q in s.reps
      ensures Replica(content, table, s.reps[q]) && s.reps[q].bcast == [] && s.reps[q].ucast == [] && s.reps[q].id == q
      ensures s.reps[q].batchMaxReq > 0
    {
      assert Fresh(q, s.reps[q]);
    }
  }

  ghost predicate MessageOk(content: Content, table: Table, s: System, dest: ID, msg: Message) {
    match msg
    case LearnMsg(_) => true
    case CommitMsg(m) => Ordered(m.ranges) && m.ranges == table(m.batchID)
    case UpdateRequestMsg(m) =>
      Ordered(m.ranges) && (m.id in s.reps ==> Requested(table, s.reps[m.id], m.batchID, m.ranges))
    case UpdateReplyMsg(m) =>
      && Supplies(content, m.ranges, m.values)
      && (dest in s.reps ==> Requested(table, s.reps[dest], m.batchID, m.ranges))
  }

  lemma SentOk(content: Content, table: Table, s: System, dest: ID, msg: Message)
    requires Inv(content, table, s) && Follows(table, s) && Sent(s, dest, msg)
    ensures MessageOk(content, table, s, dest, msg)
  {
    var p :| p in s.reps && (msg in s.reps[p].bcast || Packet(dest, msg) in s.reps[p].ucast);
    if msg in s.reps[p].bcast {
      assert BroadcastOk(table, s.reps[p], msg);
    } else {
      assert PacketOk(content, table, s, Packet(dest, msg));
    }
  }

  lemma EnabledAcceptable(content: Content, table: Table, s: System, q: ID, ev: Event)
    requires Inv(content, table, s) && Follows(table, s) && Enabled(content, s, q, ev)
    ensures Acceptable(content, table, s.reps[q], ev)
    ensures ev.UpdateRequested? && ev.request.id in s.reps ==>
              Requested(table, s.reps[ev.request.id], ev.request.batchID, ev.request.ranges)
  {
    match ev
    case Committed(msg) => SentOk(content, table, s, q, CommitMsg(msg));
    case UpdateRequested(msg) => SentOk(content, table, s, q, UpdateRequestMsg(msg));
    case UpdateReplied(msg, _) => SentOk(content, table, s, q, UpdateReplyMsg(msg));
    case _ =>
  }

  /** A message handled by replica q after its step is still what it was for everyone. */
  lemma NextInv(content: Content, table: Table, s: System, q: ID, ev: Event)
    requires Named(content) && Inv(content, table, s) && Follows(table, s) && Enabled(content, s, q, ev)
    ensures Inv(content, table, Apply(s, q, ev))
  {
    EnabledAcceptable(content, table, s, q, ev);
    StepIsOk(content, table, s.reps[q], ev);
    var s' := Apply(s, q, ev);
    var st, st' := s.reps[q], s'.reps[q];
    assert s'.reps == s.reps[q := st'];
    forall p, msg | p in s'.reps && msg in s'.reps[p].bcast
      ensures BroadcastOk(table, s'.reps[p], msg)
    {
      BroadcastLater(content, table, s, s', p, q, ev, msg);
    }
    forall p, packet | p in s'.reps && packet in s'.reps[p].ucast
      ensures PacketOk(content, table, s', packet)
    {
      PacketLater(content, table, s, s', p, q, ev, packet);
    }
  }

  lemma BroadcastLater(content: Content, table: Table, s: System, s': System, p: ID, q: ID, ev: Event, msg: Message)
    requires Inv(content, table, s) && q in s.reps && s'.reps.Keys == s.reps.Keys
    requires forall r :: r in s.reps && r != q ==> s'.reps[r] == s.reps[r]
    requires StepOk(content, table, s.reps[q], s'.reps[q], ev)
    requires p in s'.reps && msg in s'.reps[p].bcast
    ensures BroadcastOk(table, s'.reps[p], msg)
  {
    var st, st' := s.reps[p], s'.reps[p];
    if msg in st.bcast {
      assert BroadcastOk(table, st, msg);
      if p == q && msg.UpdateRequestMsg? {
        RequestedLater(table, st, st', msg.request.batchID, msg.request.ranges);
      }
    } else {
      assert forall j: nat :: j < |st.bcast| ==> st'.bcast[j] == st.bcast[j];
      var k: nat :| k < |st'.bcast| && st'.bcast[k] == msg;
    }
  }

  lemma PacketLater(content: Content, table: Table, s: System, s': System, p: ID, q: ID, ev: Event, packet: Packet)
    requires Inv(content, table, s) && q in s.reps && s'.reps.Keys == s.reps.Keys
    requires forall r :: r in s.reps && r != q ==> s'.reps[r] == s.reps[r]
    requires StepOk(content, table, s.reps[q], s'.reps[q], ev)
    requires ev.UpdateRequested? && ev.request.id in s.reps ==>
               Requested(table, s.reps[ev.request.id], ev.request.batchID, ev.request.ranges)
    requires p in s'.reps && packet in s'.reps[p].ucast
    ensures PacketOk(content, table, s', packet)
  {
    var st, st' := s.reps[p], s'.reps[p];
    if packet in st.ucast {
      assert PacketOk(content, table, s, packet);
    } else {
      assert forall j: nat :: j < |st.ucast| ==> st'.ucast[j] == st.ucast[j];
      var k: nat :| k < |st'.ucast| && st'.ucast[k] == packet;
    }
    if packet.data.UpdateReplyMsg? && packet.dest == q {
      RequestedLater(table, s.reps[q], s'.reps[q], packet.data.reply.batchID, packet.data.reply.ranges);
    }
  }

  /** Nothing broadcast is taken back. */
  lemma BroadcastsStay(st: State, ev: Event)
    requires Orderly(ev) && Step(st, ev).Ok?
    ensures st.bcast <= Step(st, ev).value.bcast
  {
    match ev
    case Committed(msg) => ExecuteOnly(Recorded(st, msg.batchID, msg.ranges), msg.batchID);
    case UpdateReplied(msg, order) =>
      var b := msg.batchID;
      var log := LoggedFor(st.log, msg.values, order);
      ExecuteOnly(Refilled(st, b, log, StateAt(st.states, b).executeRanges.Keys), b);
    case _ =>
  }

  lemma FollowsEarlier(table: Table, s: System, q: ID, ev: Event)
    requires q in s.reps && Orderly(ev) && Follows(table, Apply(s, q, ev))
    ensures Follows(table, s)
  {
    var s' := Apply(s, q, ev);
    if Step(s.reps[q], ev).Ok? {
      BroadcastsStay(s.reps[q], ev);
    }
    forall p, msg | p in s.reps && msg in s.reps[p].bcast && msg.CommitMsg?
      ensures msg.commit.ranges == table(msg.commit.batchID)
    {
      assert msg in s'.reps[p].bcast;
    }
  }

  lemma RunPrefix(content: Content, tr: seq<System>)
    requires Run(content, tr) && |tr| > 1
    ensures Run(content, tr[..|tr| - 1])
  {
    var n := |tr| - 1;
    forall k: nat | k < n - 1
      ensures Next(content, tr[..n][k], tr[..n][k + 1])
    {
      assert Next(content, tr[k], tr[k + 1]);
    }
  }

  /** In every state of a run whose commits follow the table, the invariant holds. */
  lemma {:induction false} RunInv(content: Content, table: Table, tr: seq<System>)
    requires Named(content) && Run(content, tr) && Follows(table, tr[|tr| - 1])
    ensures Inv(content, table, tr[|tr| - 1])
    decreases |tr|
  {
    var n := |tr| - 1;
    if n == 0 {
      InitInv(content, table, tr[0]);
    } else {
      assert Next(content, tr[n - 1], tr[n - 1 + 1]);
      var q, ev :| Enabled(content, tr[n - 1], q, ev) && tr[n] == Apply(tr[n - 1], q, ev);
      FollowsEarlier(table, tr[n - 1], q, ev);
      RunPrefix(content, tr);
      RunInv(content, table, tr[..n]);
      NextInv(content, table, tr[n - 1], q, ev);
    }
  }
}
