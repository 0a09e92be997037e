/** What the steps of a BatchPaxos replica do to its log, its batch states and its output. */
module BatchFacts {
  import opened Wrappers
  import opened Group
  import opened Batching
  import opened BatchPoints
  import opened BatchQuorum
  import opened BatchAcceptors

  /** The contents of the clients' requests. */
  type Content = (Client, Seq) -> Request

  ghost predicate Named(content: Content) {
    forall c: Client, i: Seq :: content(c, i).id == c && content(c, i).seqNo == i
  }

  /** The ranges committed for every batch. */
  type Table = nat -> RangeMap

  // ----- What should be executed

  function RangeContent(content: Content, c: Client, start: nat, end: nat): seq<Request>
    requires end <= MAX_UINT32
    decreases end
  {
    if end <= start then [] else RangeContent(content, c, start, end - 1) + [content(c, end - 1)]
  }

  function ListedContent(content: Content, ranges: RangeMap, ids: seq<Client>): seq<Request>
    requires forall c :: c in ids ==> c in ranges
    decreases |ids|
  {
    if ids == [] then []
    else
      var n := |ids| - 1;
      ListedContent(content, ranges, ids[..n]) +
      RangeContent(content, ids[n], ranges[ids[n]].start, ranges[ids[n]].stop + 1)
  }

  /** All requests of the first n batches: batch by batch, clients in order, then sequence numbers. */
  ghost function History(content: Content, table: Table, n: nat): seq<Request> {
    if n == 0 then []
    else History(content, table, n - 1) + ListedContent(content, table(n - 1), SortedKeys(table(n - 1).Keys))
  }

  // ----- Logs

  ghost predicate LogOk(content: Content, log: ClientLog) {
    forall c: Client, i: Seq :: HasRequest(log, c, i) ==> GetRequest(log, c, i) == content(c, i)
  }

  ghost predicate LogGrows(log: ClientLog, log': ClientLog) {
    forall c: Client, i: Seq :: HasRequest(log, c, i) ==> HasRequest(log', c, i)
  }

  ghost predicate AllComplete(log: ClientLog, ranges: RangeMap) {
    forall c :: c in ranges ==> Complete(log, c, ranges[c])
  }

  ghost predicate SameContents(log: ClientLog, log': ClientLog) {
    forall c: Client :: EntryAt(log', c).values == EntryAt(log, c).values
  }

  lemma TouchedSame(log: ClientLog, keys: set<Client>)
    ensures SameContents(log, Touched(log, keys))
  {
  }

  lemma SameLog(content: Content, log: ClientLog, log': ClientLog)
    requires SameContents(log, log')
    ensures LogGrows(log, log') && LogGrows(log', log)
    ensures LogOk(content, log) ==> LogOk(content, log')
  {
    forall c: Client, i: Seq
      ensures HasRequest(log, c, i) <==> HasRequest(log', c, i)
      ensures GetRequest(log, c, i) == GetRequest(log', c, i)
    {
      assert EntryAt(log', c).values == EntryAt(log, c).values;
    }
  }

  lemma CompleteGrows(log: ClientLog, log': ClientLog, c: Client, r: ClientRange)
    requires LogGrows(log, log') && Complete(log, c, r)
    ensures Complete(log', c, r)
  {
  }

  lemma IncompleteIsEmpty(log: ClientLog, ranges: RangeMap)
    ensures Incomplete(log, ranges) == map[] <==> AllComplete(log, ranges)
  {
    if Incomplete(log, ranges) == map[] {
      forall c | c in ranges
        ensures Complete(log, c, ranges[c])
      {
        assert c !in Incomplete(log, ranges);
      }
    }
  }

  lemma LoggedGrows(content: Content, log: ClientLog, req: Request)
    ensures LogGrows(log, Logged(log, req)) && HasRequest(Logged(log, req), req.id, req.seqNo)
    ensures LogOk(content, log) && req == content(req.id, req.seqNo) ==> LogOk(content, Logged(log, req))
  {
    var log' := Logged(log, req);
    forall c: Client, i: Seq
      ensures HasRequest(log', c, i) <==> HasRequest(log, c, i) || (c == req.id && i == req.seqNo)
      ensures GetRequest(log', c, i) == if c == req.id && i == req.seqNo then req else GetRequest(log, c, i)
    {
    }
  }

  ghost predicate Genuine(content: Content, reqs: seq<Request>) {
    forall k: nat :: k < |reqs| ==> reqs[k] == content(reqs[k].id, reqs[k].seqNo)
  }

  lemma {:induction false} LoggedAllGrows(content: Content, log: ClientLog, reqs: seq<Request>)
    ensures LogGrows(log, LoggedAll(log, reqs))
    ensures forall k: nat :: k < |reqs| ==> HasRequest(LoggedAll(log, reqs), reqs[k].id, reqs[k].seqNo)
    ensures LogOk(content, log) && Genuine(content, reqs) ==> LogOk(content, LoggedAll(log, reqs))
    decreases |reqs|
  {
    if reqs != [] {
      var n := |reqs| - 1;
      LoggedAllGrows(content, log, reqs[..n]);
      LoggedGrows(content, LoggedAll(log, reqs[..n]), reqs[n]);
      forall k: nat | k < n
        ensures HasRequest(LoggedAll(log, reqs), reqs[k].id, reqs[k].seqNo)
      {
        assert reqs[..n][k] == reqs[k];
      }
    }
  }

  lemma {:induction false} LoggedForGrows(content: Content, log: ClientLog, values: UpdateValueMap, order: seq<Client>)
    requires forall c :: c in order ==> c in values
    ensures LogGrows(log, LoggedFor(log, values, order))
    ensures forall c, k: nat :: c in order && k < |values[c]| ==>
              HasRequest(LoggedFor(log, values, order), values[c][k].id, values[c][k].seqNo)
    ensures LogOk(content, log) && (forall c :: c in order ==> Genuine(content, values[c])) ==>
              LogOk(content, LoggedFor(log, values, order))
    decreases |order|
  {
    if order != [] {
      var n := |order| - 1;
      var before := LoggedFor(log, values, order[..n]);
      LoggedForGrows(content, log, values, order[..n]);
      LoggedAllGrows(content, before, values[order[n]]);
      forall c, k: nat | c in order && k < |values[c]|
        ensures HasRequest(LoggedFor(log, values, order), values[c][k].id, values[c][k].seqNo)
      {
        if c != order[n] {
          assert c in order[..n];
        }
      }
    }
  }

  // ----- A complete batch is executed as it should be

  lemma {:induction false} RangeIsContent(content: Content, log: ClientLog, c: Client, r: ClientRange, end: nat)
    requires LogOk(content, log) && Complete(log, c, r) && end <= r.stop + 1
    ensures RangeRequests(log, c, r.start, end) == RangeContent(content, c, r.start, end)
    decreases end
  {
    if r.start < end {
      RangeIsContent(content, log, c, r, end - 1);
      assert HasRequest(log, c, end - 1);
    }
  }

  lemma {:induction false} ListedIsContent(content: Content, log: ClientLog, ranges: RangeMap, ids: seq<Client>)
    requires LogOk(content, log) && AllComplete(log, ranges) && forall c :: c in ids ==> c in ranges
    ensures Listed(log, ranges, ids) == ListedContent(content, ranges, ids)
    decreases |ids|
  {
    if ids != [] {
      var n := |ids| - 1;
      ListedIsContent(content, log, ranges, ids[..n]);
      RangeIsContent(content, log, ids[n], ranges[ids[n]], ranges[ids[n]].stop + 1);
    }
  }

  // ----- The invariant of one replica

  ghost predicate Replica(content: Content, table: Table, st: State) {
    && LogOk(content, st.log)
    && (forall b: nat :: StateAt(st.states, b).execute ==>
          StateAt(st.states, b).executeRanges == table(b) && AllComplete(st.log, table(b)))
    && (forall b: nat :: StateAt(st.states, b).executed <==> b < st.batchAru)
    && st.executed == History(content, table, st.batchAru)
  }

  /** Only the output, the executed flags and the counter of executed batches change. */
  ghost predicate OnlyExecutes(st: State, t: State) {
    && t == st.(states := t.states, batchAru := t.batchAru, executed := t.executed)
    && forall b: nat :: StateAt(t.states, b) == StateAt(st.states, b).(executed := StateAt(t.states, b).executed)
  }

  lemma ExecuteOneOnly(st: State)
    requires Due(st)
    ensures OnlyExecutes(st, ExecuteOne(st))
    ensures forall k: nat :: StateAt(ExecuteOne(st).states, k).executed <==>
                               k == st.batchAru || StateAt(st.states, k).executed
  {
    var t := ExecuteOne(st);
    forall k: nat
      ensures StateAt(t.states, k) ==
                if k == st.batchAru then st.states[k].(executed := true) else StateAt(st.states, k)
    {
    }
  }

  lemma {:induction false} AdvanceOnly(st: State)
    ensures OnlyExecutes(st, TryToAdvance(st))
    decreases |Ready(st.states)|
  {
    if Due(st) {
      ReadyShrinks(st);
      var t := ExecuteOne(st);
      ExecuteOneOnly(st);
      AdvanceOnly(t);
      forall b: nat
        ensures StateAt(TryToAdvance(st).states, b) ==
                  StateAt(st.states, b).(executed := StateAt(TryToAdvance(st).states, b).executed)
      {
        assert StateAt(t.states, b) == StateAt(st.states, b).(executed := StateAt(t.states, b).executed);
      }
    }
  }

  lemma ExecuteOneOk(content: Content, table: Table, st: State)
    requires Replica(content, table, st) && Due(st)
    ensures Replica(content, table, ExecuteOne(st))
  {
    var b := st.batchAru;
    ListedIsContent(content, st.log, table(b), SortedKeys(table(b).Keys));
    ExecuteOneOnly(st);
  }

  lemma {:induction false} AdvanceOk(content: Content, table: Table, st: State)
    requires Replica(content, table, st)
    ensures Replica(content, table, TryToAdvance(st))
    decreases |Ready(st.states)|
  {
    if Due(st) {
      ReadyShrinks(st);
      ExecuteOneOk(content, table, st);
      AdvanceOk(content, table, ExecuteOne(st));
    } else {
      TouchOk(content, table, st, st.batchAru);
    }
  }

  /** Execute only sets the flag of the batch and executes. */
  lemma ExecuteOnly(st: State, b: nat)
    ensures var t := Execute(st, b);
            && t == st.(states := t.states, batchAru := t.batchAru, executed := t.executed)
            && forall k: nat :: StateAt(t.states, k) ==
                                StateAt(st.states, k).(execute := StateAt(st.states, k).execute || k == b,
                                                       executed := StateAt(t.states, k).executed)
  {
    var t := st.(states := st.states[b := StateAt(st.states, b).(execute := true)]);
    forall k: nat
      ensures StateAt(t.states, k) ==
                if k == b then StateAt(st.states, b).(execute := true) else StateAt(st.states, k)
    {
    }
    AdvanceOnly(t);
    forall k: nat
      ensures StateAt(Execute(st, b).states, k) ==
                StateAt(st.states, k).(execute := StateAt(st.states, k).execute || k == b,
                                       executed := StateAt(Execute(st, b).states, k).executed)
    {
      assert StateAt(TryToAdvance(t).states, k) ==
               StateAt(t.states, k).(executed := StateAt(TryToAdvance(t).states, k).executed);
    }
  }

  lemma TouchOk(content: Content, table: Table, st: State, b: nat)
    ensures forall k: nat :: StateAt(Touch(st, b).states, k) == StateAt(st.states, k)
    ensures Replica(content, table, st) ==> Replica(content, table, Touch(st, b))
  {
    var t := Touch(st, b);
    assert forall k: nat :: StateAt(t.states, k) == StateAt(st.states, k);
  }

  lemma ExecuteOk(content: Content, table: Table, st: State, b: nat)
    requires Replica(content, table, st)
    requires StateAt(st.states, b).executeRanges == table(b) && AllComplete(st.log, table(b))
    ensures Replica(content, table, Execute(st, b))
  {
    var t := st.(states := st.states[b := StateAt(st.states, b).(execute := true)]);
    forall k: nat
      ensures StateAt(t.states, k) ==
                if k == b then StateAt(st.states, b).(execute := true) else StateAt(st.states, k)
    {
    }
    AdvanceOk(content, table, t);
  }
}
