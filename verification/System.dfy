/**
 * A cluster of MultiPaxos replicas with fixed membership.
 *
 * The network is the set of all messages ever sent: any of them may be handled
 * by any replica at any time, any number of times, or never. Timer ticks, trust
 * messages, client values and decided notifications may happen at any time.
 */
module MultiPaxos {
  import opened Wrappers
  import opened Group
  import opened Paxos
  import A = Acceptors
  import P = Proposers
  import L = Learners

  /** Replica i has identity ids[i], whose PaxosID is i. */
  datatype Cluster = Cluster(ids: seq<ID>, acceptors: set<nat>, alpha: nat, first: SlotID) {
    function Size(): nat {
      |ids|
    }

    function Quorum(): nat {
      |acceptors| / 2 + 1
    }

    ghost predicate WellFormed() {
      && first >= 1
      && (forall i :: 0 <= i < |ids| ==> ids[i].paxosID == i)
      && (forall a :: a in acceptors ==> a < |ids|)
    }

    /** id is the identity of a replica. */
    ghost predicate Member(id: ID) {
      0 <= id.paxosID < |ids| && ids[id.paxosID] == id
    }
  }

  datatype System = System(
    props: seq<P.State>,
    accs: seq<A.State>,
    lrns: seq<L.State>,
    sent: set<Message>,
    submitted: set<Value>,
    panicked: bool)

  datatype Action =
    | ProposerAct(i: nat, pev: P.Event)
    | PrepareAct(i: nat, prepare: Prepare)
    | AcceptAct(i: nat, accept: Accept)
    | LearnerAct(i: nat, lev: L.Event)

  // ----- Initial states

  function InitProposer(c: Cluster, id: ID, leader: ID): P.State
    requires c.first >= 1
  {
    P.State(id, leader, c.alpha, c.Size(), c.Quorum(), NewProposerRound(id), c.first, c.first - 1,
            map[], 0, [], [], 0, false)
  }

  function InitAcceptor(c: Cluster, id: ID): A.State {
    A.State(id, c.first, map[], ZERO_ROUND, c.first)
  }

  function InitLearner(c: Cluster, id: ID, leader: ID): L.State {
    L.State(id, leader, c.Size(), c.Quorum(), c.first, map[], 0, false, [])
  }

  ghost predicate Init(c: Cluster, s: System) {
    && c.WellFormed()
    && |s.props| == |s.accs| == |s.lrns| == c.Size()
    && (forall i :: 0 <= i < c.Size() ==> s.props[i] == InitProposer(c, c.ids[i], s.props[i].leader))
    && (forall i :: 0 <= i < c.Size() ==> s.accs[i] == InitAcceptor(c, c.ids[i]))
    && (forall i :: 0 <= i < c.Size() ==> s.lrns[i] == InitLearner(c, c.ids[i], s.lrns[i].leader))
    && s.sent == {} && s.submitted == {} && !s.panicked
  }

  // ----- Steps

  function Items(ms: seq<Message>): set<Message> {
    set m | m in ms
  }

  ghost predicate Enabled(c: Cluster, s: System, act: Action) {
    && act.i < c.Size() && act.i < |s.props| && act.i < |s.accs| && act.i < |s.lrns|
    && !s.panicked
    && match act
       case ProposerAct(i, ev) => ev.PromiseReceived? ==> PromiseMsg(ev.promise) in s.sent
       case PrepareAct(i, msg) => i in c.acceptors && PrepareMsg(msg) in s.sent
       case AcceptAct(i, msg) => i in c.acceptors && AcceptMsg(msg) in s.sent
       case LearnerAct(i, ev) =>
         match ev
         case LearnReceived(msg) => LearnMsg(msg) in s.sent
         case CatchUpRequested(msg) => CatchUpRequestMsg(msg) in s.sent
         case CatchUpAnswered(msg) => CatchUpResponseMsg(msg) in s.sent
         case Trust(_) => true
  }

  function Apply(s: System, act: Action): System
    requires act.i < |s.props| && act.i < |s.accs| && act.i < |s.lrns|
  {
    match act
    case ProposerAct(i, ev) =>
      (match P.Step(s.props[i], ev)
       case Panic => s.(panicked := true)
       case Ok((p, out)) =>
         s.(props := s.props[i := p], sent := s.sent + Items(out),
            submitted := if ev.ClientValue? then s.submitted + {ev.val} else s.submitted))
    case PrepareAct(i, msg) =>
      var (a, promise) := A.PrepareStep(s.accs[i], msg);
      s.(accs := s.accs[i := a], sent := if promise.Some? then s.sent + {PromiseMsg(promise.value)} else s.sent)
    case AcceptAct(i, msg) =>
      var (a, learn) := A.AcceptStep(s.accs[i], msg);
      s.(accs := s.accs[i := a], sent := if learn.Some? then s.sent + {LearnMsg(learn.value)} else s.sent)
    case LearnerAct(i, ev) =>
      (match L.Step(s.lrns[i], ev)
       case Panic => s.(panicked := true)
       case Ok((l, out)) => s.(lrns := s.lrns[i := l], sent := s.sent + Items(out)))
  }

  ghost predicate Next(c: Cluster, s: System, s': System) {
    exists act :: Enabled(c, s, act) && s' == Apply(s, act)
  }

  /** A run: every state follows from the one before by one action. */
  ghost predicate Run(c: Cluster, tr: seq<System>) {
    && tr != []
    && Init(c, tr[0])
    && forall k :: 0 <= k < |tr| - 1 ==> Next(c, tr[k], tr[k + 1])
  }
}
