/**
 * Ordering the parallel learners by a token ring (parallelpaxos/learner.go).
 *
 * Processor i of n handles the slots that are i modulo n. Whoever holds the
 * token delivers its next slot as soon as that is learned and passes the token on.
 */
module TokenRing {
  import opened Wrappers
  import opened Group
  import opened Paxos
  import opened Arithmetic
  import L = Learners

  type Delivery = (SlotID, Value)

  // ----- One processor

  datatype Processor = Processor(
    numProcessors: nat,
    nrOfNodes: nat,
    quorum: nat,
    slots: L.Slots,
    nextToDecide: SlotID,
    token: bool)

  function Put(p: Processor, i: SlotID, slot: L.LearnerSlot): Processor {
    p.(slots := p.slots[i := slot])
  }

  /** The token holder hands out its next slot if that is learned, and lets go of the token. */
  function Decide(p: Processor): (Processor, Option<Delivery>) {
    var slot := L.SlotAt(p.slots, p.nextToDecide);
    if p.token && slot.learned
    then (p.(nextToDecide := p.nextToDecide + p.numProcessors, token := false),
          Some((p.nextToDecide, slot.learnedVal)))
    else (p, None)
  }

  function TokenStep(p: Processor): (Processor, Option<Delivery>) {
    Decide(Put(p, p.nextToDecide, L.SlotAt(p.slots, p.nextToDecide)).(token := true))
  }

  function LearnStep(p: Processor, learn: Learn): Outcome<(Processor, Option<Delivery>)> {
    var slot := L.SlotAt(p.slots, learn.slot);
    if slot.learned || Less(learn.rnd, slot.rnd) then Ok((Put(p, learn.slot, slot), None))
    else
      var current := L.InRound(slot, learn.rnd, p.nrOfNodes);
      if !(0 <= learn.id.paxosID < |current.learns|) then Panic
      else if current.learns[learn.id.paxosID].Some? then Ok((Put(p, learn.slot, current), None))
      else
        var counted := L.Count(current, learn);
        if counted.votes < p.quorum then Ok((Put(p, learn.slot, counted), None))
        else
          var done := counted.(learned := true, learnedVal := learn.val);
          var t := Put(p, learn.slot, done);
          if p.token && done.id == p.nextToDecide
          then Ok((t.(nextToDecide := p.nextToDecide + p.numProcessors, token := false), Some((done.id, learn.val))))
          else Ok((t, None))
  }

  class LearnerProcessor {
    const numProcessors: nat
    const nrOfNodes: nat
    const quorum: nat
    var slots: L.Slots
    var nextToDecide: SlotID
    var nextToDecideToken: bool
    var dcdChan: seq<Delivery>      // slots and values sent to the server and the proposer
    var tokenChanNext: nat          // tokens sent to the next processor

    function Abstract(): Processor
      reads this
    {
      Processor(numProcessors, nrOfNodes, quorum, slots, nextToDecide, nextToDecideToken)
    }

    constructor (i: nat, numProcessors: nat, nrOfNodes: nat, quorum: nat)
      ensures Abstract() == InitProcessor(i, numProcessors, nrOfNodes, quorum)
      ensures dcdChan == [] && tokenChanNext == 0
    {
      this.numProcessors, this.nrOfNodes, this.quorum := numProcessors, nrOfNodes, quorum;
      slots, nextToDecide, nextToDecideToken := map[], i, false;
      dcdChan, tokenChanNext := [], 0;
      new;
      if i == 0 {
        nextToDecide := numProcessors;
      }
    }

    method GetSlot(id: SlotID) returns (slot: L.LearnerSlot)
      modifies this`slots
      ensures slot == L.SlotAt(old(slots), id) && slots == old(slots)[id := slot]
    {
      if id !in slots {
        slots := slots[id := L.FreshSlot(id)];
      }
      slot := slots[id];
    }

    /** The channels have received what a step gives. */
    twostate predicate Sent(out: Option<Delivery>)
      reads this
    {
      && dcdChan == old(dcdChan) + (if out.Some? then [out.value] else [])
      && tokenChanNext == old(tokenChanNext) + if out.Some? then 1 else 0
    }

    method ReceiveNextToDecideToken()
      modifies this
      ensures Abstract() == TokenStep(old(Abstract())).0
      ensures Sent(TokenStep(old(Abstract())).1)
    {
      nextToDecideToken := true;
      var slot := GetSlot(nextToDecide);
      if slot.learned {
        Deliver(nextToDecide, slot.learnedVal);
      }
    }

    method Deliver(id: SlotID, val: Value)
      modifies this`dcdChan, this`nextToDecide, this`nextToDecideToken, this`tokenChanNext
      ensures dcdChan == old(dcdChan) + [(id, val)] && tokenChanNext == old(tokenChanNext) + 1
      ensures nextToDecide == old(nextToDecide) + numProcessors && !nextToDecideToken
    {
      dcdChan := dcdChan + [(id, val)];
      nextToDecide := nextToDecide + numProcessors;
      nextToDecideToken := false;
      tokenChanNext := tokenChanNext + 1;
    }

    /** ok is false where the Go code would panic. */
    method HandleLearn(learn: Learn) returns (ok: bool)
      modifies this
      ensures ok == LearnStep(old(Abstract()), learn).Ok?
      ensures ok ==> Abstract() == LearnStep(old(Abstract()), learn).value.0
      ensures ok ==> Sent(LearnStep(old(Abstract()), learn).value.1)
    {
      var slot := GetSlot(learn.slot);
      if slot.learned {
        return true;
      }
      if Compare(slot.rnd, learn.rnd) == 1 {
        return true;
      }
      if Compare(slot.rnd, learn.rnd) == -1 {
        slot := slot.(rnd := learn.rnd, learns := L.NoLearns(nrOfNodes), votes := 0);
        slots := slots[learn.slot := slot];
      }
      if !(0 <= learn.id.paxosID < |slot.learns|) {
        return false;
      }
      assert slots == old(slots)[learn.slot := slot];
      if slot.learns[learn.id.paxosID].Some? {
        return true;
      }
      slot := slot.(votes := slot.votes + 1, learns := slot.learns[learn.id.paxosID := Some(learn)]);
      slots := slots[learn.slot := slot];
      assert slots == old(slots)[learn.slot := slot];
      if slot.votes < quorum {
        return true;
      }
      slot := slot.(learned := true, learnedVal := learn.val);
      slots := slots[learn.slot := slot];
      assert slots == old(slots)[learn.slot := slot];
      if nextToDecideToken && slot.id == nextToDecide {
        Deliver(slot.id, slot.learnedVal);
      }
      return true;
    }
  }

  // ----- The ring

  /** tokens[i] counts the tokens waiting in the channel of processor i. */
  datatype Ring = Ring(
    procs: seq<Processor>,
    tokens: seq<nat>,
    delivered: seq<Delivery>,
    started: bool,
    panicked: bool)

  datatype Action =
    | FirstLearn(slot: SlotID)
    | TokenAct(i: nat)
    | LearnAct(i: nat, learn: Learn)

  function InitProcessor(i: nat, n: nat, nrOfNodes: nat, quorum: nat): Processor {
    Processor(n, nrOfNodes, quorum, map[], First(n, i), false)
  }

  /** The first slot of processor i. */
  function First(n: nat, i: nat): SlotID {
    if i == 0 then n else i
  }

  ghost predicate Init(n: nat, r: Ring) {
    && n >= 1 && |r.procs| == |r.tokens| == n
    && (forall i: nat :: i < n ==> r.procs[i] == InitProcessor(i, n, r.procs[i].nrOfNodes, r.procs[i].quorum))
    && (forall i: nat :: i < n ==> r.tokens[i] == 0)
    && r.delivered == [] && !r.started && !r.panicked
  }

  /** What a step of processor i delivers goes to the server, and the token to its successor. */
  function Emit(r: Ring, i: nat, p: Processor, out: Option<Delivery>): Ring
    requires i < |r.procs| == |r.tokens|
  {
    var n := |r.procs|;
    var t := r.(procs := r.procs[i := p]);
    if out.None? then t
    else t.(delivered := r.delivered + [out.value],
            tokens := r.tokens[(i + 1) % n := r.tokens[(i + 1) % n] + 1])
  }

  ghost predicate Next(r: Ring, r': Ring, act: Action) {
    && 0 < |r.procs| == |r.tokens| && !r.panicked
    && match act
       case FirstLearn(slot) =>
         !r.started && var i := slot % |r.procs|;
         r' == r.(started := true, tokens := r.tokens[i := r.tokens[i] + 1])
       case TokenAct(i) =>
         i < |r.procs| && r.tokens[i] > 0 &&
         var (p, out) := TokenStep(r.procs[i]);
         r' == Emit(r.(tokens := r.tokens[i := r.tokens[i] - 1]), i, p, out)
       case LearnAct(i, learn) =>
         i < |r.procs| && learn.slot % |r.procs| == i && r.started &&
         match LearnStep(r.procs[i], learn)
         case Panic => r' == r.(panicked := true)
         case Ok((p, out)) => r' == Emit(r, i, p, out)
  }

  /** A run whose first learn was for a slot of processor p, once there was one. */
  ghost predicate Run(n: nat, p: nat, tr: seq<Ring>) {
    && p < n && tr != [] && Init(n, tr[0])
    && forall k :: 0 <= k < |tr| - 1 ==> StepBy(n, p, tr[k], tr[k + 1])
  }

  ghost predicate StepBy(n: nat, p: nat, r: Ring, r': Ring)
    requires n > 0
  {
    exists act :: Next(r, r', act) && (act.FirstLearn? ==> act.slot % n == p)
  }

  // ----- The invariant

  /** Processors whose first slot comes before that of p take part one turn later. */
  function Lag(n: nat, p: nat, i: nat): nat {
    if First(n, i) < First(n, p) then n else 0
  }

  /** The k-th turn belongs to the processor of this position. */
  function Turn(n: nat, p: nat, k: nat): nat
    requires n > 0
  {
    (First(n, p) + k) % n
  }

  /** The slot delivered in turn k when the token starts at processor p. */
  function SlotOfTurn(n: nat, p: nat, k: nat): int
    requires n > 0
  {
    First(n, p) + k - Lag(n, p, Turn(n, p, k))
  }

  ghost predicate KeysOk(p: Processor) {
    forall s: SlotID :: L.SlotAt(p.slots, s).id == s
  }

  ghost predicate ProcOk(n: nat, p: nat, i: nat, k: nat, proc: Processor)
    requires n > 0
  {
    && proc.numProcessors == n
    && KeysOk(proc)
    && (proc.nextToDecide + Lag(n, p, i)) % n == i
    && First(n, p) + k <= proc.nextToDecide + Lag(n, p, i) < First(n, p) + k + n
    && (proc.token ==> !L.SlotAt(proc.slots, proc.nextToDecide).learned)
  }

  /** Before the start there is no token; afterwards exactly one, with the processor whose turn it is. */
  ghost predicate TokenOk(n: nat, p: nat, r: Ring)
    requires n > 0 && |r.procs| == |r.tokens| == n
  {
    if !r.started then
      r.delivered == [] && forall i: nat :: i < n ==> r.tokens[i] == 0 && !r.procs[i].token
    else
      var cur := Turn(n, p, |r.delivered|);
      && (forall i: nat :: i < n && i != cur ==> r.tokens[i] == 0 && !r.procs[i].token)
      && r.tokens[cur] == if r.procs[cur].token then 0 else 1
  }

  ghost predicate DeliveredOk(n: nat, p: nat, r: Ring, k: nat)
    requires n > 0 && |r.procs| == n && k < |r.delivered|
  {
    var (slot, val) := r.delivered[k];
    && slot == SlotOfTurn(n, p, k)
    && L.SlotAt(r.procs[Turn(n, p, k)].slots, slot).learned
    && L.SlotAt(r.procs[Turn(n, p, k)].slots, slot).learnedVal == val
  }

  ghost predicate Inv(n: nat, p: nat, r: Ring) {
    && p < n && |r.procs| == |r.tokens| == n
    && (forall i: nat :: i < n ==> ProcOk(n, p, i, |r.delivered|, r.procs[i]))
    && TokenOk(n, p, r)
    && forall k: nat :: k < |r.delivered| ==> DeliveredOk(n, p, r, k)
  }

  // ----- Steps keep the invariant

  /** The holder's next slot is that of the current turn. */
  lemma HoldersSlot(n: nat, p: nat, k: nat, proc: Processor)
    requires n > 0 && p < n
    requires ProcOk(n, p, Turn(n, p, k), k, proc)
    ensures proc.nextToDecide == SlotOfTurn(n, p, k)
  {
    ModUnique(First(n, p) + k, proc.nextToDecide + Lag(n, p, Turn(n, p, k)), n);
  }

  /** What a processor's step does: it keeps what is learned and delivers at most its next slot. */
  ghost predicate StepOk(p: Processor, q: Processor, out: Option<Delivery>) {
    && KeysOk(q) && q.numProcessors == p.numProcessors
    && (forall s: SlotID :: L.SlotAt(p.slots, s).learned ==>
          L.SlotAt(q.slots, s).learned && L.SlotAt(q.slots, s).learnedVal == L.SlotAt(p.slots, s).learnedVal)
    && (match out
        case None => q.nextToDecide == p.nextToDecide && (q.token ==> !L.SlotAt(q.slots, q.nextToDecide).learned)
        case Some((slot, val)) =>
          && slot == p.nextToDecide
          && L.SlotAt(q.slots, slot).learned && L.SlotAt(q.slots, slot).learnedVal == val
          && q.nextToDecide == p.nextToDecide + p.numProcessors && !q.token)
  }

  lemma TokenStepOk(p: Processor)
    requires KeysOk(p)
    ensures StepOk(p, TokenStep(p).0, TokenStep(p).1)
    ensures TokenStep(p).0.token == TokenStep(p).1.None?
  {
    var t := Put(p, p.nextToDecide, L.SlotAt(p.slots, p.nextToDecide)).(token := true);
    assert forall s: SlotID :: L.SlotAt(t.slots, s) == L.SlotAt(p.slots, s);
    var q := TokenStep(p).0;
    assert forall s: SlotID :: L.SlotAt(q.slots, s) == L.SlotAt(t.slots, s);
  }

  lemma LearnStepOk(p: Processor, learn: Learn)
    requires KeysOk(p) && LearnStep(p, learn).Ok?
    requires p.token ==> !L.SlotAt(p.slots, p.nextToDecide).learned
    ensures var (q, out) := LearnStep(p, learn).value;
            && StepOk(p, q, out)
            && (out.Some? ==> p.token)
            && (out.None? ==> q.token == p.token)
  {
    var q := LearnStep(p, learn).value.0;
    assert L.SlotAt(p.slots, learn.slot).id == learn.slot;
    assert forall s: SlotID :: s != learn.slot ==> L.SlotAt(q.slots, s) == L.SlotAt(p.slots, s);
  }

  /** Without a delivery the turns stay as they are. */
  lemma QuietStep(n: nat, p: nat, r: Ring, i: nat, q: Processor)
    requires n > 0 && p < n && i < n && |r.procs| == |r.tokens| == n
    requires forall j: nat :: j < n ==> ProcOk(n, p, j, |r.delivered|, r.procs[j])
    requires forall k: nat :: k < |r.delivered| ==> DeliveredOk(n, p, r, k)
    requires StepOk(r.procs[i], q, None)
    requires TokenOk(n, p, r.(procs := r.procs[i := q]))
    ensures Inv(n, p, Emit(r, i, q, None))
  {
    var r' := Emit(r, i, q, None);
    forall k: nat | k < |r'.delivered|
      ensures DeliveredOk(n, p, r', k)
    {
      assert DeliveredOk(n, p, r, k);
    }
    assert ProcOk(n, p, i, |r.delivered|, r.procs[i]);
  }

  /** A delivery by the processor whose turn it is hands the turn to its successor. */
  lemma DeliveryStep(n: nat, p: nat, r: Ring, q: Processor, out: Option<Delivery>)
    requires n > 0 && p < n && |r.procs| == |r.tokens| == n && r.started && out.Some?
    requires forall j: nat :: j < n ==> ProcOk(n, p, j, |r.delivered|, r.procs[j])
    requires forall k: nat :: k < |r.delivered| ==> DeliveredOk(n, p, r, k)
    requires var cur := Turn(n, p, |r.delivered|);
             StepOk(r.procs[cur], q, out) && forall j: nat :: j < n && j != cur ==> !r.procs[j].token
    requires forall j: nat :: j < n ==> r.tokens[j] == 0
    ensures Inv(n, p, Emit(r, Turn(n, p, |r.delivered|), q, out))
  {
    var k0 := |r.delivered|;
    var cur := Turn(n, p, k0);
    var r' := Emit(r, cur, q, out);
    HoldersSlot(n, p, k0, r.procs[cur]);
    ModStep(First(n, p) + k0, n);
    ModStep(cur, n);
    assert Turn(n, p, k0 + 1) == (cur + 1) % n by {
      NextTurn(cur, n);
    }
    forall j: nat | j < n
      ensures ProcOk(n, p, j, k0 + 1, r'.procs[j])
    {
      assert ProcOk(n, p, j, k0, r.procs[j]);
      NextSlotOk(n, p, j, k0, r.procs[j], r'.procs[j]);
    }
    forall k: nat | k < |r'.delivered|
      ensures DeliveredOk(n, p, r', k)
    {
      if k < k0 {
        assert DeliveredOk(n, p, r, k);
      }
    }
  }

  lemma NextTurn(cur: int, n: int)
    requires 0 <= cur < n
    ensures (cur + 1) % n == if cur == n - 1 then 0 else cur + 1
  {
    ModIs(cur, n, 0, cur);
    ModStep(cur, n);
  }

  lemma NextSlotOk(n: nat, p: nat, j: nat, k: nat, was: Processor, now: Processor)
    requires n > 0 && p < n && j < n && ProcOk(n, p, j, k, was)
    requires KeysOk(now) && now.numProcessors == n && !now.token
    requires now.nextToDecide == was.nextToDecide + if j == Turn(n, p, k) then n else 0
    ensures ProcOk(n, p, j, k + 1, now)
  {
    var v := was.nextToDecide + Lag(n, p, j);
    ModStep(v, n);
    if v == First(n, p) + k {
      assert j == Turn(n, p, k);
    } else if j == Turn(n, p, k) {
      ModUnique(First(n, p) + k, v, n);
    }
  }

  lemma FirstMod(n: nat, i: nat)
    requires i < n
    ensures First(n, i) % n == i
    ensures (First(n, i) + n) % n == i
  {
    ModIs(i, n, 0, i);
    ModIs(n, n, 1, 0);
    ModStep(First(n, i), n);
  }

  lemma InitInv(n: nat, p: nat, r: Ring)
    requires p < n && Init(n, r)
    ensures Inv(n, p, r)
  {
    forall i: nat | i < n
      ensures ProcOk(n, p, i, 0, r.procs[i])
    {
      assert r.procs[i] == InitProcessor(i, n, r.procs[i].nrOfNodes, r.procs[i].quorum);
      FirstMod(n, i);
    }
  }

  lemma FirstLearnInv(n: nat, p: nat, r: Ring, r': Ring, slot: SlotID)
    requires Inv(n, p, r) && Next(r, r', FirstLearn(slot)) && slot % n == p
    ensures Inv(n, p, r')
  {
    FirstMod(n, p);
  }

  lemma TokenActInv(n: nat, p: nat, r: Ring, r': Ring, i: nat)
    requires Inv(n, p, r) && Next(r, r', TokenAct(i))
    ensures Inv(n, p, r')
  {
    assert i == Turn(n, p, |r.delivered|) && ProcOk(n, p, i, |r.delivered|, r.procs[i]);
    var (q, out) := TokenStep(r.procs[i]);
    var r1 := r.(tokens := r.tokens[i := r.tokens[i] - 1]);
    TokenStepOk(r.procs[i]);
    forall k: nat | k < |r.delivered|
      ensures DeliveredOk(n, p, r1, k)
    {
      assert DeliveredOk(n, p, r, k);
    }
    if out.None? {
      QuietStep(n, p, r1, i, q);
    } else {
      DeliveryStep(n, p, r1, q, out);
    }
  }

  lemma PanickedInv(n: nat, p: nat, r: Ring)
    requires Inv(n, p, r)
    ensures Inv(n, p, r.(panicked := true))
  {
    forall k: nat | k < |r.delivered|
      ensures DeliveredOk(n, p, r.(panicked := true), k)
    {
      assert DeliveredOk(n, p, r, k);
    }
  }

  lemma LearnActInv(n: nat, p: nat, r: Ring, r': Ring, i: nat, learn: Learn)
    requires Inv(n, p, r) && Next(r, r', LearnAct(i, learn))
    ensures Inv(n, p, r')
  {
    assert ProcOk(n, p, i, |r.delivered|, r.procs[i]);
    if LearnStep(r.procs[i], learn).Panic? {
      PanickedInv(n, p, r);
    } else {
      var (q, out) := LearnStep(r.procs[i], learn).value;
      LearnStepOk(r.procs[i], learn);
      if out.None? {
        QuietStep(n, p, r, i, q);
      } else {
        assert i == Turn(n, p, |r.delivered|);
        DeliveryStep(n, p, r, q, out);
      }
    }
  }

  lemma NextInv(n: nat, p: nat, r: Ring, r': Ring, act: Action)
    requires Inv(n, p, r) && Next(r, r', act) && (act.FirstLearn? ==> act.slot % n == p)
    ensures Inv(n, p, r')
  {
    match act
    case FirstLearn(slot) => FirstLearnInv(n, p, r, r', slot);
    case TokenAct(i) => TokenActInv(n, p, r, r', i);
    case LearnAct(i, learn) => LearnActInv(n, p, r, r', i, learn);
  }

  lemma {:induction false} RunInv(n: nat, p: nat, tr: seq<Ring>, k: nat)
    requires Run(n, p, tr) && k < |tr|
    ensures Inv(n, p, tr[k])
  {
    if k == 0 {
      InitInv(n, p, tr[0]);
    } else {
      RunInv(n, p, tr, k - 1);
      assert StepBy(n, p, tr[k - 1], tr[k - 1 + 1]);
      var act :| Next(tr[k - 1], tr[k], act) && (act.FirstLearn? ==> act.slot % n == p);
      NextInv(n, p, tr[k - 1], tr[k], act);
    }
  }

  // ----- What the ring guarantees

  predicate HasToken(r: Ring, i: nat)
    requires i < |r.procs| == |r.tokens|
  {
    r.tokens[i] > 0 || r.procs[i].token
  }

  /** There is never more than one token, in a channel or in a processor's hands. */
  lemma OneToken(n: nat, p: nat, tr: seq<Ring>, k: nat, i: nat, j: nat)
    requires Run(n, p, tr) && k < |tr| && i < n && j < n
    ensures |tr[k].procs| == |tr[k].tokens| == n
    ensures HasToken(tr[k], i) && HasToken(tr[k], j) ==> i == j
    ensures tr[k].tokens[i] + (if tr[k].procs[i].token then 1 else 0) <= 1
  {
    RunInv(n, p, tr, k);
  }

  /** No processor rests with the token while its next slot is learned. */
  lemma NoIdleHolder(n: nat, p: nat, tr: seq<Ring>, k: nat, i: nat)
    requires Run(n, p, tr) && k < |tr| && i < n
    ensures i < |tr[k].procs|
    ensures var proc := tr[k].procs[i]; proc.token ==> !L.SlotAt(proc.slots, proc.nextToDecide).learned
  {
    RunInv(n, p, tr, k);
    assert ProcOk(n, p, i, |tr[k].delivered|, tr[k].procs[i]);
  }

  ghost predicate InSlotOrder(delivered: seq<Delivery>) {
    forall k: nat :: k < |delivered| ==> delivered[k].0 == k + 1
  }

  /**
   * The processors together deliver the slots 1, 2, 3, ... exactly once and in
   * order if and only if the first learn was for a slot of the processor that
   * owns slot 1 (or nothing has been delivered yet).
   */
  lemma InOrderIffStartedAtSlotOne(n: nat, p: nat, tr: seq<Ring>, k: nat)
    requires Run(n, p, tr) && k < |tr|
    ensures InSlotOrder(tr[k].delivered) <==> tr[k].delivered == [] || p == 1 % n
  {
    var r := tr[k];
    RunInv(n, p, tr, k);
    OneModulo(n);
    FirstMod(n, p);
    forall j: nat | j < |r.delivered|
      ensures r.delivered[j].0 == SlotOfTurn(n, p, j)
    {
      assert DeliveredOk(n, p, r, j);
    }
    if r.delivered != [] {
      assert Turn(n, p, 0) == p && r.delivered[0].0 == First(n, p);
      if p == 1 % n {
        forall j: nat | j < |r.delivered|
          ensures r.delivered[j].0 == j + 1
        {
          assert Turn(n, p, j) < n && First(n, Turn(n, p, j)) >= 1;
        }
      }
    }
  }

  lemma OneModulo(n: nat)
    requires n > 0
    ensures 1 % n == if n == 1 then 0 else 1
  {
    if n == 1 {
      ModIs(1, n, 1, 0);
    } else {
      ModIs(1, n, 0, 1);
    }
  }

  /**
   * The deliveries are those of one sequential learner: the k-th is the value
   * learned in slot k, and once no token is on its way the slot after the last
   * delivered one has not been learned.
   */
  lemma RefinesSequentialLearner(n: nat, tr: seq<Ring>, k: nat)
    requires n > 0 && Run(n, 1 % n, tr) && k < |tr|
    ensures |tr[k].procs| == |tr[k].tokens| == n
    ensures forall j: nat :: j < |tr[k].delivered| ==> DeliveryOf(n, tr[k], j)
    ensures tr[k].started && (forall i: nat :: i < n ==> tr[k].tokens[i] == 0) ==>
              var m := |tr[k].delivered| + 1;
              !L.SlotAt(tr[k].procs[m % n].slots, m).learned
  {
    var r := tr[k];
    var p := 1 % n;
    RunInv(n, p, tr, k);
    InOrderIffStartedAtSlotOne(n, p, tr, k);
    forall j: nat | j < |r.delivered|
      ensures DeliveryOf(n, r, j)
    {
      TurnAtSlotOne(n, j);
      assert DeliveredOk(n, p, r, j);
    }
    if r.started && forall i: nat :: i < n ==> r.tokens[i] == 0 {
      NextUnlearned(n, r);
    }
  }

  /** The j-th delivery is the value that the owner of slot j + 1 has learned there. */
  ghost predicate DeliveryOf(n: nat, r: Ring, j: nat)
    requires n > 0 && |r.procs| == n && j < |r.delivered|
  {
    var slot := L.SlotAt(r.procs[(j + 1) % n].slots, j + 1);
    r.delivered[j].0 == j + 1 && slot.learned && slot.learnedVal == r.delivered[j].1
  }

  /** With the token started at the owner of slot 1, turn j belongs to slot j + 1. */
  lemma TurnAtSlotOne(n: nat, j: nat)
    requires n > 0
    ensures First(n, 1 % n) == 1 && Turn(n, 1 % n, j) == (j + 1) % n
    ensures Turn(n, 1 % n, j) < n && SlotOfTurn(n, 1 % n, j) == j + 1
  {
    OneModulo(n);
  }

  /** While no token is on its way the slot after the last delivered one is not learned. */
  lemma NextUnlearned(n: nat, r: Ring)
    requires n > 0 && Inv(n, 1 % n, r) && r.started && forall i: nat :: i < n ==> r.tokens[i] == 0
    ensures var m := |r.delivered| + 1;
            !L.SlotAt(r.procs[m % n].slots, m).learned
  {
    var p, k := 1 % n, |r.delivered|;
    TurnAtSlotOne(n, k);
    assert ProcOk(n, p, Turn(n, p, k), k, r.procs[Turn(n, p, k)]);
    HoldersSlot(n, p, k, r.procs[Turn(n, p, k)]);
  }

  // ----- Panics

  /** The learn comes from a replica of the group, in a round above zero. */
  ghost predicate InGroup(p: Processor, learn: Learn) {
    0 <= learn.id.paxosID < p.nrOfNodes && Less(ZERO_ROUND, learn.rnd)
  }

  /** A slot has a place for the learn of every replica once it has seen a round. */
  ghost predicate RoomForLearns(p: Processor) {
    forall s: SlotID :: |L.SlotAt(p.slots, s).learns| == p.nrOfNodes || L.SlotAt(p.slots, s).rnd == ZERO_ROUND
  }

  lemma StepKeepsRoom(p: Processor, learn: Learn)
    requires RoomForLearns(p) && InGroup(p, learn)
    ensures LearnStep(p, learn).Ok?
    ensures var q := LearnStep(p, learn).value.0;
            q.nrOfNodes == p.nrOfNodes && RoomForLearns(q)
  {
    var q := LearnStep(p, learn).value.0;
    assert forall s: SlotID :: s != learn.slot ==> L.SlotAt(q.slots, s) == L.SlotAt(p.slots, s);
  }

  lemma TokenKeepsRoom(p: Processor)
    requires RoomForLearns(p)
    ensures var q := TokenStep(p).0;
            q.nrOfNodes == p.nrOfNodes && RoomForLearns(q)
  {
    var q := TokenStep(p).0;
    assert forall s: SlotID :: L.SlotAt(q.slots, s) == L.SlotAt(p.slots, s);
  }

  /** All learns that the processors handle come from the group. */
  ghost predicate GroupStep(n: nat, p: nat, r: Ring, r': Ring)
    requires n > 0
  {
    exists act :: Next(r, r', act) && (act.FirstLearn? ==> act.slot % n == p) &&
                  (act.LearnAct? ==> InGroup(r.procs[act.i], act.learn))
  }

  ghost predicate GroupRun(n: nat, p: nat, tr: seq<Ring>) {
    && p < n && tr != [] && Init(n, tr[0])
    && forall k :: 0 <= k < |tr| - 1 ==> GroupStep(n, p, tr[k], tr[k + 1])
  }

  ghost predicate Roomy(r: Ring) {
    !r.panicked && forall i: nat :: i < |r.procs| ==> RoomForLearns(r.procs[i])
  }

  lemma RoomyNext(n: nat, p: nat, r: Ring, r': Ring)
    requires n > 0 && Roomy(r) && GroupStep(n, p, r, r')
    ensures Roomy(r')
  {
    var act :| Next(r, r', act) && (act.FirstLearn? ==> act.slot % n == p) &&
      (act.LearnAct? ==> InGroup(r.procs[act.i], act.learn));
    match act
    case FirstLearn(_) =>
    case TokenAct(i) => TokenKeepsRoom(r.procs[i]);
    case LearnAct(i, learn) => StepKeepsRoom(r.procs[i], learn);
  }

  /** No processor panics in a run whose learns come from the group. */
  lemma {:induction false} NoPanicInGroup(n: nat, p: nat, tr: seq<Ring>, k: nat)
    requires GroupRun(n, p, tr) && k < |tr|
    ensures Roomy(tr[k])
  {
    if k == 0 {
      assert forall i: nat :: i < n ==> tr[0].procs[i].slots == map[];
    } else {
      NoPanicInGroup(n, p, tr, k - 1);
      assert GroupStep(n, p, tr[k - 1], tr[k - 1 + 1]);
      RoomyNext(n, p, tr[k - 1], tr[k]);
    }
  }

  /** A processor panics exactly on a learn that it would count but has no place for. */
  lemma PanicsIff(p: Processor, learn: Learn)
    ensures var slot := L.SlotAt(p.slots, learn.slot);
            var places := if slot.rnd == learn.rnd then |slot.learns| else p.nrOfNodes;
            LearnStep(p, learn).Panic? <==>
              !slot.learned && !Less(learn.rnd, slot.rnd) && !(0 <= learn.id.paxosID < places)
  {
  }

  // ----- A start elsewhere

  /** One replica per slot, the first learn for the first slot of processor p, and this slot learned. */
  function StartAt(n: nat, p: nat): seq<Ring>
    requires p < n
  {
    var procs := seq(n, (i: nat) => InitProcessor(i, n, 1, 1));
    var none := seq(n, (i: nat) => 0);
    var r0 := Ring(procs, none, [], false, false);
    var r1 := r0.(started := true, tokens := none[p := 1]);
    var (waiting, _) := TokenStep(procs[p]);
    var r2 := Emit(r1.(tokens := r1.tokens[p := 0]), p, waiting, None);
    var learn := Learn(ID(0, 0), First(n, p), Round(1, ID(0, 0)), Noop, []);
    match LearnStep(waiting, learn)
    case Panic => [r0, r1, r2]
    case Ok((done, out)) => [r0, r1, r2, Emit(r2, p, done, out)]
  }

  /** Whenever the first learn is for a slot of a processor that does not own slot 1, slots can come out of order. */
  lemma StartElsewhereDeliversOutOfOrder(n: nat, p: nat)
    requires p < n && p != 1 % n
    ensures Run(n, p, StartAt(n, p)) && |StartAt(n, p)| == 4
    ensures StartAt(n, p)[3].delivered == [(First(n, p), Noop)] && !InSlotOrder(StartAt(n, p)[3].delivered)
  {
    var tr := StartAt(n, p);
    var learn := Learn(ID(0, 0), First(n, p), Round(1, ID(0, 0)), Noop, []);
    FirstMod(n, p);
    assert LearnStep(tr[2].procs[p], learn).Ok?;
    assert Next(tr[0], tr[1], FirstLearn(First(n, p)));
    assert Next(tr[1], tr[2], TokenAct(p));
    assert Next(tr[2], tr[3], LearnAct(p, learn));
    assert StepBy(n, p, tr[0], tr[1]) && StepBy(n, p, tr[1], tr[2]) && StepBy(n, p, tr[2], tr[3]);
    InOrderIffStartedAtSlotOne(n, p, tr, 3);
  }
}
