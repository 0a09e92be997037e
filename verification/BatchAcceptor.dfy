/**
 * The BatchPaxos replica (batchpaxos/batchacceptor.go).
 *
 * `executed` holds everything sent on the decided channel, `bcast` and `ucast`
 * everything sent to the other replicas so far. The functions are the steps of
 * the event loop on values; the class refines them.
 */
module BatchAcceptors {
  import opened Wrappers
  import opened Group
  import opened Batching
  import opened BatchPoints
  import opened BatchQuorum

  datatype BatchCommit = BatchCommit(id: ID, batchID: nat, ranges: RangeMap)
  datatype UpdateRequest = UpdateRequest(id: ID, batchID: nat, ranges: RangeMap)
  datatype UpdateReply = UpdateReply(id: ID, batchID: nat, ranges: RangeMap, values: UpdateValueMap)

  datatype Message =
    | LearnMsg(learn: BatchLearn)
    | CommitMsg(commit: BatchCommit)
    | UpdateRequestMsg(request: UpdateRequest)
    | UpdateReplyMsg(reply: UpdateReply)

  datatype Packet = Packet(dest: ID, data: Message)

  datatype State = State(
    id: ID,
    leader: ID,
    batchMaxReq: nat,
    currNumReq: nat,
    log: ClientLog,
    batchMap: map<nat, Batch>,
    currentBatch: nat,
    points: seq<BatchPoint>,
    quorumSize: nat,
    states: States,
    batchAru: nat,
    executed: seq<Request>,
    bcast: seq<Message>,
    ucast: seq<Packet>)

  /** A value from a client: application requests, or a no-op or reconfiguration command. */
  datatype ClientValue = App(cr: seq<Request>) | Other

  datatype Event =
    | ClientRequest(val: ClientValue)
    | Learned(learn: BatchLearn)
    | Committed(commit: BatchCommit)
    | UpdateRequested(request: UpdateRequest)
    | UpdateReplied(reply: UpdateReply, order: seq<Client>)
    | BatchTimeout
    | Trust(id: ID)

  function Touch(st: State, b: nat): State {
    st.(states := st.states[b := StateAt(st.states, b)])
  }

  // ----- Execution

  ghost function Ready(states: States): set<nat> {
    set b | b in states && states[b].execute && !states[b].executed
  }

  predicate Due(st: State) {
    var state := StateAt(st.states, st.batchAru);
    state.execute && !state.executed
  }

  ghost function ExecuteOne(st: State): State
    requires Due(st)
  {
    var state := st.states[st.batchAru];
    st.(executed := st.executed + Listing(st.log, state.executeRanges),
        states := st.states[st.batchAru := state.(executed := true)],
        batchAru := st.batchAru + 1)
  }

  lemma ReadyShrinks(st: State)
    requires Due(st)
    ensures |Ready(ExecuteOne(st).states)| < |Ready(st.states)|
  {
    assert st.batchAru in Ready(st.states);
    assert Ready(ExecuteOne(st).states) == Ready(st.states) - {st.batchAru};
  }

  ghost function TryToAdvance(st: State): State
    decreases |Ready(st.states)|
  {
    if !Due(st) then Touch(st, st.batchAru)
    else
      ReadyShrinks(st);
      TryToAdvance(ExecuteOne(st))
  }

  ghost function Execute(st: State, b: nat): State {
    TryToAdvance(st.(states := st.states[b := StateAt(st.states, b).(execute := true)]))
  }

  // ----- Events

  ghost function SendBatch(st: State): State {
    match DueBatch(st.log, st.batchMap, st.currentBatch)
    case None => st
    case Some(b) =>
      st.(batchMap := st.batchMap[st.currentBatch := b], currentBatch := st.currentBatch + 1,
          ucast := st.ucast + [Packet(st.leader, LearnMsg(BatchLearn(st.id, b.id, b.hss)))])
  }

  /** The process ends on values that hold no request. */
  ghost function HandleValue(st: State, val: ClientValue): Outcome<State> {
    match val
    case Other => Panic
    case App(cr) => if cr == [] then Panic else HandleRequest(st, cr[0])
  }

  ghost function HandleRequest(st: State, req: Request): Outcome<State> {
    if st.batchMaxReq == 0 then Panic
    else
      var n := (st.currNumReq + 1) % st.batchMaxReq;
      var t := st.(log := Logged(st.log, req), currNumReq := n);
      Ok(if n == 0 then SendBatch(t) else t)
  }

  function Learnt(st: State, msg: BatchLearn): BatchState {
    var state := StateAt(st.states, msg.batchID);
    state.(learns := state.learns + [msg])
  }

  /** A quorum is complete that was not notified before. */
  predicate NewQuorum(st: State, state: BatchState) {
    |Senders(state.learns)| >= st.quorumSize && !state.learnsNotified
  }

  ghost function CommitBatch(st: State, b: nat, state: BatchState): State {
    var (points, _, ranges) := Tried(st.points, Intersection(state.learns));
    st.(states := st.states[b := state.(learnsNotified := true)], points := points,
        bcast := st.bcast + [CommitMsg(BatchCommit(st.id, b, ranges))])
  }

  ghost function HandleLearn(st: State, msg: BatchLearn): State {
    var state := Learnt(st, msg);
    if NewQuorum(st, state) then CommitBatch(st, msg.batchID, state)
    else st.(states := st.states[msg.batchID := state])
  }

  ghost function HandleCommit(st: State, msg: BatchCommit): State {
    var b := msg.batchID;
    var inc := Incomplete(st.log, msg.ranges);
    var t := st.(states := st.states[b := StateAt(st.states, b).(executeRanges := msg.ranges)],
                 log := Touched(st.log, msg.ranges.Keys));
    if inc == map[] then Execute(t, b)
    else t.(bcast := t.bcast + [UpdateRequestMsg(UpdateRequest(t.id, b, inc))])
  }

  ghost function HandleUpdateRequest(st: State, msg: UpdateRequest): State {
    var t := st.(log := Touched(st.log, msg.ranges.Keys));
    if Incomplete(st.log, msg.ranges) != map[] then t
    else
      var cmds := ClientCommands(t.log, msg.ranges);
      t.(ucast := t.ucast + [Packet(msg.id, UpdateReplyMsg(UpdateReply(t.id, msg.batchID, msg.ranges, cmds)))])
  }

  /** Ends the process when the reply does not complete the ranges of the batch. */
  ghost function HandleUpdateReply(st: State, msg: UpdateReply, order: seq<Client>): Outcome<State>
    requires Enumerates(order, msg.values.Keys)
  {
    var b := msg.batchID;
    if StateAt(st.states, b).execute then Ok(Touch(st, b))
    else
      var ranges := StateAt(st.states, b).executeRanges;
      var log := LoggedFor(st.log, msg.values, order);
      if Incomplete(log, ranges) != map[] then Panic
      else Ok(Execute(Touch(st, b).(log := Touched(log, ranges.Keys)), b))
  }

  ghost predicate Orderly(ev: Event) {
    ev.UpdateReplied? ==> Enumerates(ev.order, ev.reply.values.Keys)
  }

  ghost function Step(st: State, ev: Event): Outcome<State>
    requires Orderly(ev)
  {
    match ev
    case ClientRequest(val) => HandleValue(st, val)
    case Learned(msg) => Ok(HandleLearn(st, msg))
    case Committed(msg) => Ok(HandleCommit(st, msg))
    case UpdateRequested(msg) => Ok(HandleUpdateRequest(st, msg))
    case UpdateReplied(msg, order) => HandleUpdateReply(st, msg, order)
    case BatchTimeout => Ok(SendBatch(st))
    case Trust(id) => Ok(st.(leader := id))
  }

  // ----- The objects

  class BatchAcceptor {
    const id: ID
    var leader: ID
    const batcher: Batcher
    const batchpter: BatchPointer
    const batchqc: BatchQuorumChecker
    var batchAru: nat
    const batchMaxReq: nat
    var currNumReq: nat
    var dcdChan: seq<Request>
    var bcastChan: seq<Message>
    var ucastChan: seq<Packet>

    predicate Valid()
      reads this, batcher
    {
      batcher.Valid()
    }

    function Abstract(): State
      reads this, batcher, batchpter, batchqc
    {
      State(id, leader, batchMaxReq, currNumReq, batcher.clog, batcher.batchMap, batcher.currentBatch,
            batchpter.points, batchqc.quorumSize, batchqc.states, batchAru, dcdChan, bcastChan, ucastChan)
    }

    constructor (id: ID, leader: ID, nrOfAcceptors: nat, batchMaxReq: nat)
      ensures Valid() && fresh(batcher) && fresh(batchpter) && fresh(batchqc)
      ensures Abstract() ==
                State(id, leader, batchMaxReq, 0, map[], map[], 0, [], nrOfAcceptors / 2 + 1, map[], 0, [], [], [])
    {
      this.id, this.leader, this.batchMaxReq := id, leader, batchMaxReq;
      batcher := new Batcher();
      batchpter := new BatchPointer();
      batchqc := new BatchQuorumChecker(nrOfAcceptors / 2 + 1);
      batchAru, currNumReq, dcdChan, bcastChan, ucastChan := 0, 0, [], [], [];
    }

    /** One turn of the event loop; ok is false where the Go code would end the process. */
    method Handle(ev: Event) returns (ok: bool)
      requires Valid() && Orderly(ev)
      modifies this, batcher, batchpter, batchqc
      ensures Valid()
      ensures ok == Step(old(Abstract()), ev).Ok?
      ensures ok ==> Abstract() == Step(old(Abstract()), ev).value
    {
      ok := true;
      match ev {
        case ClientRequest(val) => ok := OnValue(val);
        case Learned(msg) => OnLearnMsg(msg);
        case Committed(msg) => OnCommitMsg(msg);
        case UpdateRequested(msg) => OnUpdateRequestMsg(msg);
        case UpdateReplied(msg, order) => ok := OnUpdateReplyMsg(msg, order);
        case BatchTimeout => OnBatchTimeout();
        case Trust(trustID) => leader := trustID;
      }
    }

    method OnBatchTimeout()
      requires Valid()
      modifies this, batcher
      ensures Valid()
      ensures Abstract() == SendBatch(old(Abstract()))
    {
      var batch := batcher.GetBatch();
      if batch.Some? {
        var learn := LearnMsg(BatchLearn(id, batch.value.id, batch.value.hss));
        ucastChan := ucastChan + [Packet(leader, learn)];
      }
    }

    method OnValue(val: ClientValue) returns (ok: bool)
      requires Valid()
      modifies this, batcher
      ensures Valid()
      ensures ok == HandleValue(old(Abstract()), val).Ok?
      ensures ok ==> Abstract() == HandleValue(old(Abstract()), val).value
    {
      if val.Other? || |val.cr| == 0 {
        return false;
      }
      ok := OnRequest(val.cr[0]);
    }

    method OnRequest(req: Request) returns (ok: bool)
      requires Valid()
      modifies this, batcher
      ensures Valid()
      ensures ok == HandleRequest(old(Abstract()), req).Ok?
      ensures ok ==> Abstract() == HandleRequest(old(Abstract()), req).value
    {
      batcher.LogRequest(req);
      if batchMaxReq == 0 {
        return false;
      }
      currNumReq := (currNumReq + 1) % batchMaxReq;
      if currNumReq == 0 {
        OnBatchTimeout();
      }
      return true;
    }

    method OnUpdateRequestMsg(msg: UpdateRequest)
      requires Valid()
      modifies this, batcher
      ensures Valid()
      ensures Abstract() == HandleUpdateRequest(old(Abstract()), msg)
    {
      var inc := batcher.GetIncompleteRanges(msg.ranges);
      if |inc| == 0 {
        var cmds := batcher.GetClientCommands(msg.ranges);
        var reply := UpdateReplyMsg(UpdateReply(id, msg.batchID, msg.ranges, cmds));
        ucastChan := ucastChan + [Packet(msg.id, reply)];
      }
    }

    method OnUpdateReplyMsg(msg: UpdateReply, order: seq<Client>) returns (ok: bool)
      requires Valid() && Enumerates(order, msg.values.Keys)
      modifies this, batcher, batchqc
      ensures Valid()
      ensures ok == HandleUpdateReply(old(Abstract()), msg, order).Ok?
      ensures ok ==> Abstract() == HandleUpdateReply(old(Abstract()), msg, order).value
    {
      var state := batchqc.GetState(msg.batchID);
      if state.execute {
        return true;
      }
      batcher.SetClientCommands(msg.values, order);
      var inc := batcher.GetIncompleteRanges(state.executeRanges);
      ok := |inc| == 0;
      if ok {
        MarkAndAdvance(msg.batchID);
      }
    }

    method OnLearnMsg(msg: BatchLearn)
      requires Valid()
      modifies this, batchpter, batchqc
      ensures Valid()
      ensures Abstract() == HandleLearn(old(Abstract()), msg)
    {
      batchqc.AddLearn(msg);
      var quorum := batchqc.LearnQuorumExists(msg.batchID);
      if quorum {
        var intersect := batchqc.Intersect(msg.batchID);
        var _, ranges := batchpter.TryBatchPoint(intersect);
        bcastChan := bcastChan + [CommitMsg(BatchCommit(id, msg.batchID, ranges))];
      }
    }

    method OnCommitMsg(msg: BatchCommit)
      requires Valid()
      modifies this, batcher, batchqc
      ensures Valid()
      ensures Abstract() == HandleCommit(old(Abstract()), msg)
    {
      var state := batchqc.GetState(msg.batchID);
      batchqc.states := batchqc.states[msg.batchID := state.(executeRanges := msg.ranges)];
      assert batchqc.states == old(batchqc.states)[msg.batchID := state.(executeRanges := msg.ranges)];
      var inc := batcher.GetIncompleteRanges(msg.ranges);
      ghost var t := Abstract();
      assert t == old(Abstract()).(states := batchqc.states, log := batcher.clog);
      if |inc| == 0 {
        MarkAndAdvance(msg.batchID);
        assert Abstract() == Execute(t, msg.batchID);
      } else {
        bcastChan := bcastChan + [UpdateRequestMsg(UpdateRequest(id, msg.batchID, inc))];
      }
    }

    /** Sets the Execute flag of the batch and tries to advance. */
    method MarkAndAdvance(b: nat)
      requires Valid()
      modifies this, batchqc
      ensures Valid()
      ensures Abstract() == Execute(old(Abstract()), b)
    {
      var state := batchqc.GetState(b);
      batchqc.states := batchqc.states[b := state.(execute := true)];
      assert batchqc.states == old(batchqc.states)[b := state.(execute := true)];
      Advance();
    }

    method Advance()
      requires Valid()
      modifies this, batchqc
      ensures Valid()
      ensures Abstract() == TryToAdvance(old(Abstract()))
    {
      ghost var result := TryToAdvance(Abstract());
      while Due(Abstract())
        invariant Valid()
        invariant TryToAdvance(Abstract()) == result
        decreases |Ready(batchqc.states)|
      {
        ReadyShrinks(Abstract());
        ExecuteNext();
      }
      var _ := batchqc.GetState(batchAru);
    }

    method ExecuteNext()
      requires Valid() && Due(Abstract())
      modifies this, batchqc
      ensures Valid()
      ensures Abstract() == ExecuteOne(old(Abstract()))
    {
      var state := batchqc.GetState(batchAru);
      dcdChan := batcher.ForEach(state.executeRanges, dcdChan);
      batchqc.states := batchqc.states[batchAru := state.(executed := true)];
      batchAru := batchAru + 1;
    }
  }
}
