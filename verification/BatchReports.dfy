/**
 * What BatchPaxos replicas report to the leader and when the leader commits: after every
 * timeout, and after every batchMaxReq requests, all logged requests have been reported,
 * and a commit follows exactly when a quorum of replicas has reported a batch.
 */
module BatchReports {
  import opened Wrappers
  import opened Group
  import opened Sets
  import opened Batching
  import opened BatchPoints
  import opened BatchQuorum
  import opened BatchAcceptors
  import opened BatchFacts
  import opened BatchSafety
  import opened BatchOrder

  // ----- Reports

  /** The highest number seen of a client is that of one of its requests, or 0. */
  ghost predicate HighestOk(entry: LogEntry) {
    && (forall i :: i in entry.values ==> i <= entry.highestSeen)
    && (entry.highestSeen == 0 || entry.highestSeen in entry.values)
  }

  ghost predicate LogCounted(log: ClientLog) {
    forall c :: c in log ==> HighestOk(log[c])
  }

  /** Batch k has been sent, and names requests that are in the log. */
  ghost predicate ReportSent(st: State, k: nat) {
    && k in st.batchMap
    && (exists dest :: Packet(dest, LearnMsg(BatchLearn(st.id, k, st.batchMap[k].hss))) in st.ucast)
    && forall c :: c in st.batchMap[k].hss ==>
         c in st.log && (st.batchMap[k].hss[c] == 0 || HasRequest(st.log, c, st.batchMap[k].hss[c]))
  }

  ghost predicate Bookkept(st: State) {
    LogCounted(st.log) && forall k: nat :: k < st.currentBatch ==> ReportSent(st, k)
  }

  /** The last report names client c with no less than number i. */
  predicate Reported(st: State, c: Client, i: Seq) {
    var last := st.currentBatch - 1;
    last >= 0 && last in st.batchMap && c in st.batchMap[last].hss && i <= st.batchMap[last].hss[c]
  }

  ghost predicate AllReported(st: State) {
    forall c, i: Seq :: HasRequest(st.log, c, i) ==> Reported(st, c, i)
  }

  /** Every client in the log is named with its highest number. */
  ghost predicate NothingNew(st: State) {
    forall c :: c in st.log ==> Reported(st, c, st.log[c].highestSeen)
  }

  /** A report goes to the leader if and only if the log holds something new, and then all of it is reported. */
  ghost predicate Reports(st: State, t: State) {
    && AllReported(t)
    && if NothingNew(st) then t == st
       else exists hss ::
         && t.ucast == st.ucast + [Packet(st.leader, LearnMsg(BatchLearn(st.id, st.currentBatch, hss)))]
         && t == st.(batchMap := st.batchMap[st.currentBatch := Batch(st.currentBatch, hss)],
                     currentBatch := st.currentBatch + 1, ucast := t.ucast)
  }

  ghost predicate KnownBy(hss: BatchPoint, prev: BatchPoint) {
    forall c :: c in hss ==> c in prev && hss[c] <= prev[c]
  }

  lemma SameKeys<T>(a: set<T>, b: set<T>)
    requires a <= b && |b| <= |a|
    ensures a == b
  {
    assert a + (b - a) == b;
    assert |b| == |a| + |b - a|;
  }

  /** Comparing sizes and numbers is enough, as no client ever leaves the log. */
  lemma BatchableIff(hss: BatchPoint, prev: BatchPoint)
    requires prev.Keys <= hss.Keys
    ensures Batchable(hss, prev) <==> !KnownBy(hss, prev)
  {
    if KnownBy(hss, prev) {
      assert prev.Keys == hss.Keys;
    }
    if !Batchable(hss, prev) {
      SameKeys(prev.Keys, hss.Keys);
      forall c | c in hss
        ensures c in prev && hss[c] <= prev[c]
      {
        assert c in prev.Keys;
      }
    }
  }

  /** There is a batch to send exactly if something is new. */
  lemma DueIffNew(st: State)
    requires Bookkept(st)
    ensures DueBatch(st.log, st.batchMap, st.currentBatch).None? <==> NothingNew(st)
  {
    var hss, prev := HighestSeen(st.log), PreviousHss(st.batchMap, st.currentBatch);
    if st.currentBatch > 0 {
      assert ReportSent(st, st.currentBatch - 1);
    }
    assert prev.Keys <= hss.Keys;
    BatchableIff(hss, prev);
    assert NothingNew(st) <==> KnownBy(hss, prev) by {
      assert forall c :: c in st.log ==> hss[c] == st.log[c].highestSeen;
    }
  }

  lemma KnownIsReported(st: State)
    requires LogCounted(st.log) && NothingNew(st)
    ensures AllReported(st)
  {
    forall c, i: Seq | HasRequest(st.log, c, i)
      ensures Reported(st, c, i)
    {
      assert Reported(st, c, st.log[c].highestSeen) && HighestOk(st.log[c]);
    }
  }

  /** A timeout leaves nothing unreported. */
  lemma TimeoutReports(st: State)
    requires Bookkept(st)
    ensures Reports(st, SendBatch(st)) && Bookkept(SendBatch(st))
  {
    var t := SendBatch(st);
    DueIffNew(st);
    if NothingNew(st) {
      KnownIsReported(st);
    } else {
      forall c | c in t.log
        ensures Reported(t, c, t.log[c].highestSeen)
      {
      }
      KnownIsReported(t);
      forall k: nat | k < t.currentBatch
        ensures ReportSent(t, k)
      {
        NewReportSent(st, t, k);
      }
    }
  }

  lemma NewReportSent(st: State, t: State, k: nat)
    requires Bookkept(st) && t == SendBatch(st) && t != st && k < t.currentBatch
    ensures ReportSent(t, k)
  {
    if k < st.currentBatch {
      assert ReportSent(st, k);
      var dest :| Packet(dest, LearnMsg(BatchLearn(st.id, k, st.batchMap[k].hss))) in st.ucast;
      assert Packet(dest, LearnMsg(BatchLearn(t.id, k, t.batchMap[k].hss))) in t.ucast;
    } else {
      assert t.ucast[|st.ucast|] == Packet(st.leader, LearnMsg(BatchLearn(t.id, k, t.batchMap[k].hss)));
      assert Packet(st.leader, LearnMsg(BatchLearn(t.id, k, t.batchMap[k].hss))) in t.ucast;
      forall c | c in t.batchMap[k].hss
        ensures c in t.log && (t.batchMap[k].hss[c] == 0 || HasRequest(t.log, c, t.batchMap[k].hss[c]))
      {
        assert HighestOk(t.log[c]);
      }
    }
  }

  // ----- Requests

  /** The log has gained this request and nothing else. */
  ghost predicate Gains(log: ClientLog, log': ClientLog, req: Request) {
    forall c: Client, i: Seq ::
      && (HasRequest(log', c, i) <==> HasRequest(log, c, i) || (c == req.id && i == req.seqNo))
      && GetRequest(log', c, i) == if c == req.id && i == req.seqNo then req else GetRequest(log, c, i)
  }

  /** The request is logged and counted; with every batchMaxReq-th request everything logged is reported. */
  ghost predicate RequestCounted(st: State, u: State, req: Request, t: State)
    requires st.batchMaxReq > 0
  {
    && u == st.(log := u.log, currNumReq := (st.currNumReq + 1) % st.batchMaxReq)
    && Gains(st.log, u.log, req)
    && if u.currNumReq == 0 then Reports(u, t) else t == u
  }

  lemma LoggedCounted(log: ClientLog, req: Request)
    requires LogCounted(log)
    ensures LogCounted(Logged(log, req)) && Gains(log, Logged(log, req), req)
    ensures log.Keys <= Logged(log, req).Keys
  {
    assert HighestOk(EntryAt(log, req.id));
  }

  lemma {:induction false} LoggedAllCounted(log: ClientLog, reqs: seq<Request>)
    requires LogCounted(log)
    ensures LogCounted(LoggedAll(log, reqs)) && log.Keys <= LoggedAll(log, reqs).Keys
    decreases |reqs|
  {
    if reqs != [] {
      LoggedAllCounted(log, reqs[..|reqs| - 1]);
      LoggedCounted(LoggedAll(log, reqs[..|reqs| - 1]), reqs[|reqs| - 1]);
    }
  }

  lemma {:induction false} LoggedForCounted(log: ClientLog, values: UpdateValueMap, order: seq<Client>)
    requires LogCounted(log) && forall c :: c in order ==> c in values
    ensures LogCounted(LoggedFor(log, values, order)) && log.Keys <= LoggedFor(log, values, order).Keys
    decreases |order|
  {
    if order != [] {
      var n := |order| - 1;
      LoggedForCounted(log, values, order[..n]);
      LoggedAllCounted(LoggedFor(log, values, order[..n]), values[order[n]]);
    }
  }

  lemma TouchedCounted(log: ClientLog, keys: set<Client>)
    requires LogCounted(log)
    ensures LogCounted(Touched(log, keys)) && log.Keys <= Touched(log, keys).Keys
  {
  }

  /** Reports stay as they are while the log and the sent messages only grow. */
  ghost predicate OnlyGrows(st: State, t: State) {
    && (t.id, t.batchMap, t.currentBatch) == (st.id, st.batchMap, st.currentBatch)
    && st.ucast <= t.ucast && LogGrows(st.log, t.log) && st.log.Keys <= t.log.Keys && LogCounted(t.log)
  }

  predicate SameCounters(st: State, t: State) {
    (t.leader, t.currNumReq, t.batchMaxReq) == (st.leader, st.currNumReq, st.batchMaxReq)
  }

  lemma BookkeptLater(st: State, t: State)
    requires Bookkept(st) && OnlyGrows(st, t)
    ensures Bookkept(t)
  {
    forall k: nat | k < t.currentBatch
      ensures ReportSent(t, k)
    {
      assert ReportSent(st, k);
      var dest :| Packet(dest, LearnMsg(BatchLearn(st.id, k, st.batchMap[k].hss))) in st.ucast;
      assert Packet(dest, LearnMsg(BatchLearn(t.id, k, t.batchMap[k].hss))) in t.ucast;
    }
  }

  lemma RequestTurn(content: Content, st: State, req: Request)
    requires Bookkept(st) && st.batchMaxReq > 0
    ensures HandleRequest(st, req).Ok?
    ensures var t := HandleRequest(st, req).value;
            Bookkept(t) && exists u :: RequestCounted(st, u, req, t)
  {
    var u := st.(log := Logged(st.log, req), currNumReq := (st.currNumReq + 1) % st.batchMaxReq);
    LoggedCounted(st.log, req);
    LoggedGrows(content, st.log, req);
    BookkeptLater(st, u);
    if u.currNumReq == 0 {
      TimeoutReports(u);
    }
    assert RequestCounted(st, u, req, HandleRequest(st, req).value);
  }

  lemma UpdatesOnlyGrow(content: Content, st: State, ev: Event)
    requires Bookkept(st) && Orderly(ev) && Step(st, ev).Ok?
    requires ev.Committed? || ev.UpdateRequested? || ev.UpdateReplied?
    ensures OnlyGrows(st, Step(st, ev).value) && SameCounters(st, Step(st, ev).value)
  {
    match ev
    case Committed(msg) =>
      TouchedGrows(content, st.log, msg.ranges.Keys);
      ExecuteOnly(Recorded(st, msg.batchID, msg.ranges), msg.batchID);
    case UpdateRequested(msg) => TouchedGrows(content, st.log, msg.ranges.Keys);
    case UpdateReplied(msg, order) => ReplyOnlyGrows(content, st, msg, order);
  }

  lemma TouchedGrows(content: Content, log: ClientLog, keys: set<Client>)
    requires LogCounted(log)
    ensures LogGrows(log, Touched(log, keys)) && LogCounted(Touched(log, keys)) && log.Keys <= Touched(log, keys).Keys
  {
    TouchedSame(log, keys);
    SameLog(content, log, Touched(log, keys));
    TouchedCounted(log, keys);
  }

  lemma ReplyOnlyGrows(content: Content, st: State, msg: UpdateReply, order: seq<Client>)
    requires Bookkept(st) && Enumerates(order, msg.values.Keys) && HandleUpdateReply(st, msg, order).Ok?
    ensures var t := HandleUpdateReply(st, msg, order).value;
            OnlyGrows(st, t) && SameCounters(st, t)
  {
    var b := msg.batchID;
    if !StateAt(st.states, b).execute {
      var log, keys := LoggedFor(st.log, msg.values, order), StateAt(st.states, b).executeRanges.Keys;
      LoggedForGrows(content, st.log, msg.values, order);
      LoggedForCounted(st.log, msg.values, order);
      TouchedGrows(content, log, keys);
      ExecuteOnly(Refilled(st, b, log, keys), b);
    }
  }

  /** What each turn reports. */
  ghost predicate TurnReports(st: State, ev: Event, t: State)
    requires st.batchMaxReq > 0
  {
    match ev
    case ClientRequest(val) => val.App? && val.cr != [] && exists u :: RequestCounted(st, u, val.cr[0], t)
    case BatchTimeout => Reports(st, t)
    case Trust(id) => t == st.(leader := id)
    case _ => OnlyGrows(st, t) && SameCounters(st, t)
  }

  /** Only requests and timeouts report, and after a timeout or enough requests everything logged is reported. */
  lemma EachTurnReports(content: Content, st: State, ev: Event)
    requires Bookkept(st) && st.batchMaxReq > 0 && Orderly(ev) && Step(st, ev).Ok?
    ensures var t := Step(st, ev).value;
            Bookkept(t) && t.batchMaxReq == st.batchMaxReq && TurnReports(st, ev, t)
  {
    match ev
    case ClientRequest(val) => RequestTurn(content, st, val.cr[0]);
    case Learned(msg) =>
      LearnKeeps(st, msg);
      BookkeptLater(st, HandleLearn(st, msg));
    case BatchTimeout => TimeoutReports(st);
    case Trust(id) => BookkeptLater(st, st.(leader := id));
    case _ =>
      UpdatesOnlyGrow(content, st, ev);
      BookkeptLater(st, Step(st, ev).value);
  }

  /** In every run each replica has sent every report it has made, and reported nothing it does not have. */
  lemma {:induction false} AlwaysBookkept(content: Content, tr: seq<System>, q: ID)
    requires Run(content, tr) && q in tr[|tr| - 1].reps
    ensures Bookkept(tr[|tr| - 1].reps[q]) && tr[|tr| - 1].reps[q].batchMaxReq > 0
    decreases |tr|
  {
    var n := |tr| - 1;
    if n == 0 {
      assert Fresh(q, tr[0].reps[q]);
    } else {
      assert Next(content, tr[n - 1], tr[n - 1 + 1]);
      var p, ev :| Enabled(content, tr[n - 1], p, ev) && tr[n] == Apply(tr[n - 1], p, ev);
      RunPrefix(content, tr);
      AlwaysBookkept(content, tr[..n], q);
      if p == q && Step(tr[n - 1].reps[q], ev).Ok? {
        EachTurnReports(content, tr[n - 1].reps[q], ev);
      }
    }
  }
}
