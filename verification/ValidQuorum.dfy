/**
 * Valid quorums for Live Replacement (multipaxos/vq.go, lr/vq.go).
 *
 * Learns, promises and epoch promises are searched by the same code; a Ballot is
 * what that code reads from a message: the sender and its epoch vector.
 */
module ValidQuorum {
  import opened Wrappers
  import opened Group
  import opened Combinations
  import Sets

  datatype Ballot = Ballot(id: ID, epochVector: seq<Epoch>)

  /**
   * The conflict test of the source: a and b conflict if they have one position or if one
   * knows a newer epoch of the other. It panics on an epoch vector that is too short.
   */
  function TestConflict(a: Ballot, b: Ballot): Outcome<bool> {
    if a.id.paxosID == b.id.paxosID then Ok(true)
    else if !(0 <= a.id.paxosID < |b.epochVector|) then Panic
    else if a.id.epoch < b.epochVector[a.id.paxosID] then Ok(true)
    else if !(0 <= b.id.paxosID < |a.epochVector|) then Panic
    else Ok(b.id.epoch < a.epochVector[b.id.paxosID])
  }

  /** a and b may stand in one quorum: different positions, and neither knows a newer epoch of the other. */
  predicate Compatible(a: Ballot, b: Ballot) {
    && a.id.paxosID != b.id.paxosID
    && 0 <= a.id.paxosID < |b.epochVector| && b.epochVector[a.id.paxosID] <= a.id.epoch
    && 0 <= b.id.paxosID < |a.epochVector| && a.epochVector[b.id.paxosID] <= b.id.epoch
  }

  lemma TestedCompatible(a: Ballot, b: Ballot)
    ensures TestConflict(a, b) == Ok(false) <==> Compatible(a, b)
    ensures Compatible(a, b) <==> Compatible(b, a)
  {
  }

  predicate Selects(s: Indices, msgs: seq<Ballot>) {
    forall k :: 0 <= k < |s| ==> 0 <= s[k] < |msgs|
  }

  ghost predicate ConflictFree(s: Indices, msgs: seq<Ballot>)
    requires Selects(s, msgs)
  {
    forall j, k :: 0 <= j < k < |s| ==> Compatible(msgs[s[j]], msgs[s[k]])
  }

  /** An increasing choice of `size` messages without conflicts. */
  ghost predicate IsQuorum(s: Indices, msgs: seq<Ballot>, size: nat) {
    |s| == size && Increasing(s, 0, |msgs|) && ConflictFree(s, msgs)
  }

  /** The lexicographically first quorum. */
  ghost predicate IsFirstQuorum(s: Indices, msgs: seq<Ballot>, size: nat) {
    IsQuorum(s, msgs, size) && forall t :: IsQuorum(t, msgs, size) && t != s ==> LexLess(s, t)
  }

  /** A set of `size` messages that are pairwise free of conflicts. */
  ghost predicate QuorumSet(q: set<nat>, msgs: seq<Ballot>, size: nat) {
    && |q| == size
    && (forall x :: x in q ==> x < |msgs|)
    && forall x, y :: x in q && y in q && x != y ==> Compatible(msgs[x], msgs[y])
  }

  ghost predicate HasQuorum(msgs: seq<Ballot>, size: nat) {
    exists q :: QuorumSet(q, msgs, size)
  }

  // ----- Sets and increasing sequences

  function Sorted(q: set<nat>, lo: nat, hi: nat): Indices
    requires lo <= hi
    decreases hi - lo
  {
    if lo == hi then []
    else (if lo in q then [lo] else []) + Sorted(q, lo + 1, hi)
  }

  lemma {:induction false} SortedIncreasing(q: set<nat>, lo: nat, hi: nat)
    requires lo <= hi
    ensures Increasing(Sorted(q, lo, hi), lo, hi)
    ensures forall x :: x in Sorted(q, lo, hi) ==> x in q
    decreases hi - lo
  {
    if lo < hi {
      SortedIncreasing(q, lo + 1, hi);
    }
  }

  lemma {:induction false} SortedSize(q: set<nat>, lo: nat, hi: nat)
    requires lo <= hi && forall x :: x in q ==> lo <= x < hi
    ensures |Sorted(q, lo, hi)| == |q|
    decreases hi - lo
  {
    if lo == hi {
      assert q == {};
    } else {
      SortedSize(q - {lo}, lo + 1, hi);
      SortedIgnores(q, lo + 1, hi, lo);
      assert lo !in q ==> q - {lo} == q;
    }
  }

  lemma SortedSet(q: set<nat>, lo: nat, hi: nat)
    requires lo <= hi && forall x :: x in q ==> lo <= x < hi
    ensures |Sorted(q, lo, hi)| == |q| && Increasing(Sorted(q, lo, hi), lo, hi)
    ensures forall x :: x in Sorted(q, lo, hi) ==> x in q
  {
    SortedSize(q, lo, hi);
    SortedIncreasing(q, lo, hi);
  }

  lemma {:induction false} SortedIgnores(q: set<nat>, lo: nat, hi: nat, x: nat)
    requires lo <= hi && x < lo
    ensures Sorted(q - {x}, lo, hi) == Sorted(q, lo, hi)
    decreases hi - lo
  {
    if lo < hi {
      SortedIgnores(q, lo + 1, hi, x);
    }
  }

  lemma SetGivesCombo(q: set<nat>, msgs: seq<Ballot>, size: nat)
    requires QuorumSet(q, msgs, size)
    ensures IsQuorum(Sorted(q, 0, |msgs|), msgs, size)
  {
    var s := Sorted(q, 0, |msgs|);
    SortedSet(q, 0, |msgs|);
    forall j, k | 0 <= j < k < |s|
      ensures Compatible(msgs[s[j]], msgs[s[k]])
    {
      assert s[j] in q && s[k] in q && s[j] != s[k];
    }
  }

  function Elements(s: Indices): set<nat> {
    set x: nat | x in s
  }

  lemma {:induction false} ElementsSize(s: Indices, lo: nat, hi: nat)
    requires Increasing(s, lo, hi)
    ensures |Elements(s)| == |s|
  {
    if s == [] {
      assert Elements(s) == {};
    } else {
      var front, x := s[..|s| - 1], s[|s| - 1];
      ElementsSize(front, lo, hi);
      assert Elements(s) == Elements(front) + {x};
      assert x !in Elements(front);
    }
  }

  lemma ComboGivesSet(s: Indices, msgs: seq<Ballot>, size: nat)
    requires IsQuorum(s, msgs, size)
    ensures QuorumSet(Elements(s), msgs, size)
  {
    ElementsSize(s, 0, |msgs|);
    forall x, y | x in Elements(s) && y in Elements(s) && x != y
      ensures Compatible(msgs[x], msgs[y])
    {
      var j :| 0 <= j < |s| && s[j] == x;
      var k :| 0 <= k < |s| && s[k] == y;
      assert Compatible(msgs[s[if j < k then j else k]], msgs[s[if j < k then k else j]]);
      TestedCompatible(msgs[x], msgs[y]);
    }
  }

  // ----- The search

  /** The test of the a-th and b-th chosen messages. */
  function PairTest(s: Indices, msgs: seq<Ballot>, a: nat, b: nat): Outcome<bool>
    requires Selects(s, msgs)
  {
    if a < b < |s| then TestConflict(msgs[s[a]], msgs[s[b]]) else Ok(false)
  }

  /** The pair at which the two loops over the pairs of a combination stop, from pair (i, j) on. */
  function FirstStop(s: Indices, msgs: seq<Ballot>, i: nat, j: nat): Option<(nat, nat)>
    requires Selects(s, msgs)
    decreases |s| - i, |s| - j
  {
    if i >= |s| then None
    else if j >= |s| then FirstStop(s, msgs, i + 1, i + 2)
    else if PairTest(s, msgs, i, j) != Ok(false) then Some((i, j))
    else FirstStop(s, msgs, i, j + 1)
  }

  function Verdict(s: Indices, msgs: seq<Ballot>): Outcome<bool>
    requires Selects(s, msgs)
  {
    match FirstStop(s, msgs, 0, 1)
    case None => Ok(true)
    case Some((a, b)) => if PairTest(s, msgs, a, b).Panic? then Panic else Ok(false)
  }

  /** Pair (a, b) comes before pair (i, j) in the two loops. */
  predicate Earlier(a: nat, b: nat, i: nat, j: nat) {
    a < i || (a == i && b < j)
  }

  /** The loops stop at pair (i, j): it is the first that fails the test. */
  ghost predicate StopsAt(s: Indices, msgs: seq<Ballot>, i: nat, j: nat)
    requires Selects(s, msgs)
  {
    PairTest(s, msgs, i, j) != Ok(false) && PassedBefore(s, msgs, i, j)
  }

  ghost predicate PassedBefore(s: Indices, msgs: seq<Ballot>, i: nat, j: nat)
    requires Selects(s, msgs)
  {
    forall a: nat, b: nat :: Earlier(a, b, i, j) ==> PairTest(s, msgs, a, b) == Ok(false)
  }

  /** The test reads past the end of an epoch vector before it finds a conflict. */
  ghost predicate ReadsPastEnd(s: Indices, msgs: seq<Ballot>)
    requires Selects(s, msgs)
  {
    exists i: nat, j: nat :: StopsAt(s, msgs, i, j) && PairTest(s, msgs, i, j).Panic?
  }

  lemma {:induction false} StopMeaning(s: Indices, msgs: seq<Ballot>, i: nat, j: nat)
    requires Selects(s, msgs) && i < j && PassedBefore(s, msgs, i, j)
    ensures match FirstStop(s, msgs, i, j)
            case None => forall a: nat, b: nat :: PairTest(s, msgs, a, b) == Ok(false)
            case Some((a, b)) => StopsAt(s, msgs, a, b)
    decreases |s| - i, |s| - j
  {
    if i >= |s| {
      assert forall a: nat, b: nat :: a < |s| ==> Earlier(a, b, i, j);
    } else if j >= |s| {
      assert forall a: nat, b: nat :: Earlier(a, b, i + 1, i + 2) ==>
        Earlier(a, b, i, j) || PairTest(s, msgs, a, b) == Ok(false);
      StopMeaning(s, msgs, i + 1, i + 2);
    } else if PairTest(s, msgs, i, j) == Ok(false) {
      assert forall a: nat, b: nat :: Earlier(a, b, i, j + 1) ==> Earlier(a, b, i, j) || (a == i && b == j);
      StopMeaning(s, msgs, i, j + 1);
    }
  }

  lemma OneStop(s: Indices, msgs: seq<Ballot>, i: nat, j: nat, a: nat, b: nat)
    requires Selects(s, msgs) && StopsAt(s, msgs, i, j) && StopsAt(s, msgs, a, b)
    ensures i == a && j == b
  {
    assert !Earlier(a, b, i, j) && !Earlier(i, j, a, b);
  }

  lemma AllPassed(s: Indices, msgs: seq<Ballot>)
    requires Selects(s, msgs)
    ensures (forall a: nat, b: nat :: PairTest(s, msgs, a, b) == Ok(false)) <==> ConflictFree(s, msgs)
  {
    forall a: nat, b: nat | a < b < |s|
      ensures PairTest(s, msgs, a, b) == Ok(false) <==> Compatible(msgs[s[a]], msgs[s[b]])
    {
      TestedCompatible(msgs[s[a]], msgs[s[b]]);
    }
  }

  /** A combination passes if it is conflict-free, and panics exactly if a short vector is read before a conflict shows. */
  lemma VerdictMeaning(s: Indices, msgs: seq<Ballot>)
    requires Selects(s, msgs)
    ensures Verdict(s, msgs) == Ok(true) <==> ConflictFree(s, msgs)
    ensures Verdict(s, msgs).Panic? <==> ReadsPastEnd(s, msgs)
  {
    StopMeaning(s, msgs, 0, 1);
    AllPassed(s, msgs);
    if ReadsPastEnd(s, msgs) {
      var i: nat, j: nat :| StopsAt(s, msgs, i, j) && PairTest(s, msgs, i, j).Panic?;
      var stop := FirstStop(s, msgs, 0, 1);
      if stop.Some? {
        OneStop(s, msgs, i, j, stop.value.0, stop.value.1);
      }
    }
  }

  method CheckCombination(indices: Indices, msgs: seq<Ballot>) returns (ok: Outcome<bool>)
    requires Selects(indices, msgs)
    ensures ok == Ok(true) <==> ConflictFree(indices, msgs)
    ensures ok.Panic? <==> ReadsPastEnd(indices, msgs)
  {
    VerdictMeaning(indices, msgs);
    var i: nat := 0;
    while i < |indices|
      invariant FirstStop(indices, msgs, i, i + 1) == FirstStop(indices, msgs, 0, 1)
    {
      var j: nat := i + 1;
      while j < |indices|
        invariant FirstStop(indices, msgs, i, j) == FirstStop(indices, msgs, 0, 1)
        invariant j > i
      {
        var conflict := TestConflict(msgs[indices[i]], msgs[indices[j]]);
        if conflict.Panic? {
          return Panic;
        }
        if conflict.value {
          return Ok(false);
        }
        j := j + 1;
      }
      i := i + 1;
    }
    return Ok(true);
  }

  /** Combination k is the first one in the list that is a quorum or panics, and it panics. */
  ghost predicate PanicsAt(msgs: seq<Ballot>, size: nat, k: nat) {
    var all := Combos(|msgs|, size);
    && k < |all| && Selects(all[k], msgs) && ReadsPastEnd(all[k], msgs)
    && forall j: nat :: j < k ==> !IsQuorum(all[j], msgs, size)
  }

  /** The search reads past the end of an epoch vector before it finds a quorum. */
  ghost predicate SearchPanics(msgs: seq<Ballot>, size: nat) {
    |msgs| > 0 && exists k: nat :: PanicsAt(msgs, size, k)
  }

  /**
   * Finds the lexicographically first conflict-free choice of quorumSize messages, if any
   * exists, unless a vector that is too short is read before.
   */
  method ExtractValidQuorum(msgs: seq<Ballot>, quorumSize: nat) returns (found: Outcome<Option<Indices>>)
    ensures found.Panic? <==> SearchPanics(msgs, quorumSize)
    ensures found.Ok? ==> (found.value.Some? <==> msgs != [] && HasQuorum(msgs, quorumSize))
    ensures found.Ok? && found.value.Some? ==> IsFirstQuorum(found.value.value, msgs, quorumSize)
  {
    if |msgs| == 0 || |msgs| < quorumSize {
      TooFew(msgs, quorumSize);
      return Ok(None);
    }
    var ci := new CombinationIterator(|msgs|, quorumSize);
    ghost var all := Combos(|msgs|, quorumSize);
    while ci.HasNext()
      invariant ci.Valid() && ci.n == |msgs| && ci.r == quorumSize
      invariant fresh(ci) && fresh(ci.s)
      invariant forall k: nat :: k < ci.i ==> !IsQuorum(all[k], msgs, quorumSize) && !PanicsAt(msgs, quorumSize, k)
      decreases ci.c - ci.i
    {
      CombosIncreasing(0, |msgs|, quorumSize, ci.i);
      var ok := CheckCombination(ci.s[..], msgs);
      if ok.Panic? {
        assert PanicsAt(msgs, quorumSize, ci.i);
        return Panic;
      }
      if ok.value {
        FoundFirst(msgs, quorumSize, ci.i);
        return Ok(Some(ci.s[..]));
      }
      if quorumSize == 0 {
        assert false;
      }
      ci.Next();
    }
    NoneFound(msgs, quorumSize);
    return Ok(None);
  }

  lemma TooFew(msgs: seq<Ballot>, size: nat)
    requires |msgs| == 0 || |msgs| < size
    ensures !SearchPanics(msgs, size)
    ensures msgs != [] ==> !HasQuorum(msgs, size)
  {
    if msgs != [] {
      CombosFirst(0, |msgs|, size);
      if HasQuorum(msgs, size) {
        var q :| QuorumSet(q, msgs, size);
        QuorumFits(q, msgs, size);
        assert false;
      }
    }
  }

  /** The first combination that passes is the least quorum, and no later panic matters. */
  lemma FoundFirst(msgs: seq<Ballot>, size: nat, i: nat)
    requires i < |Combos(|msgs|, size)| && IsQuorum(Combos(|msgs|, size)[i], msgs, size)
    requires forall k: nat :: k < i ==> !IsQuorum(Combos(|msgs|, size)[k], msgs, size) && !PanicsAt(msgs, size, k)
    ensures IsFirstQuorum(Combos(|msgs|, size)[i], msgs, size) && HasQuorum(msgs, size) && !SearchPanics(msgs, size)
  {
    var s := Combos(|msgs|, size)[i];
    ComboGivesSet(s, msgs, size);
    FirstIsLeast(msgs, size, i);
    VerdictMeaning(s, msgs);
    assert forall k: nat :: PanicsAt(msgs, size, k) ==> k == i;
  }

  /** With an entry for every sender in every epoch vector the search never panics. */
  lemma WellFormedNeverPanics(msgs: seq<Ballot>, size: nat)
    requires WellFormed(msgs)
    ensures !SearchPanics(msgs, size)
  {
  }

  /** Every epoch vector has an entry for every sender. */
  ghost predicate WellFormed(msgs: seq<Ballot>) {
    forall i, j :: 0 <= i < |msgs| && 0 <= j < |msgs| ==> 0 <= msgs[i].id.paxosID < |msgs[j].epochVector|
  }

  lemma QuorumFits(q: set<nat>, msgs: seq<Ballot>, size: nat)
    requires QuorumSet(q, msgs, size)
    ensures size <= |msgs|
  {
    SetGivesCombo(q, msgs, size);
    if size > 0 {
      IncreasingLowerBound(Sorted(q, 0, |msgs|), 0, |msgs|, size - 1);
    }
  }

  lemma QuorumListed(q: set<nat>, msgs: seq<Ballot>, size: nat) returns (k: nat)
    requires QuorumSet(q, msgs, size)
    ensures k < |Combos(|msgs|, size)| && IsQuorum(Combos(|msgs|, size)[k], msgs, size)
  {
    SetGivesCombo(q, msgs, size);
    CombosComplete(0, |msgs|, Sorted(q, 0, |msgs|));
    k :| k < |Combos(|msgs|, size)| && Combos(|msgs|, size)[k] == Sorted(q, 0, |msgs|);
  }

  lemma NoneFound(msgs: seq<Ballot>, size: nat)
    requires forall k: nat :: k < |Combos(|msgs|, size)| ==> !IsQuorum(Combos(|msgs|, size)[k], msgs, size)
    ensures !HasQuorum(msgs, size)
  {
    if HasQuorum(msgs, size) {
      var q :| QuorumSet(q, msgs, size);
      var k := QuorumListed(q, msgs, size);
      assert false;
    }
  }

  lemma FirstIsLeast(msgs: seq<Ballot>, size: nat, i: nat)
    requires i < |Combos(|msgs|, size)|
    requires IsQuorum(Combos(|msgs|, size)[i], msgs, size)
    requires forall k: nat :: k < i ==> !IsQuorum(Combos(|msgs|, size)[k], msgs, size)
    ensures IsFirstQuorum(Combos(|msgs|, size)[i], msgs, size)
  {
    var all := Combos(|msgs|, size);
    forall t | IsQuorum(t, msgs, size) && t != all[i]
      ensures LexLess(all[i], t)
    {
      CombosComplete(0, |msgs|, t);
      var k: nat :| k < |all| && all[k] == t;
      assert k > i;
      CombosSorted(0, |msgs|, size, i, k);
    }
  }

  // ----- Quorums of a majority intersect

  function Positions(q: set<nat>, msgs: seq<Ballot>): set<int>
    requires forall x :: x in q ==> x < |msgs|
  {
    set x | x in q :: msgs[x].id.paxosID as int
  }

  lemma {:induction false} PositionsSize(q: set<nat>, msgs: seq<Ballot>)
    requires forall x :: x in q ==> x < |msgs|
    requires forall x, y :: x in q && y in q && x != y ==> msgs[x].id.paxosID != msgs[y].id.paxosID
    ensures |Positions(q, msgs)| == |q|
  {
    if q != {} {
      var x :| x in q;
      PositionsSize(q - {x}, msgs);
      assert Positions(q, msgs) == Positions(q - {x}, msgs) + {msgs[x].id.paxosID as int};
    } else {
      assert Positions(q, msgs) == {};
    }
  }

  function UpTo(n: nat): (s: set<int>)
    ensures |s| == n && forall x :: x in s <==> 0 <= x < n
  {
    if n == 0 then {} else UpTo(n - 1) + {n - 1}
  }

  /**
   * Two valid majority quorums over n replica positions, possibly found in
   * different sets of messages, share a position.
   */
  lemma ValidQuorumsIntersect(msgs: seq<Ballot>, q: set<nat>, msgs': seq<Ballot>, q': set<nat>, n: nat)
    returns (x: nat, y: nat)
    requires QuorumSet(q, msgs, n / 2 + 1)
    requires QuorumSet(q', msgs', n / 2 + 1)
    requires forall m :: m in msgs || m in msgs' ==> 0 <= m.id.paxosID < n
    ensures x in q && y in q' && msgs[x].id.paxosID == msgs'[y].id.paxosID
  {
    PositionsSize(q, msgs);
    PositionsSize(q', msgs');
    var id := Sets.Pigeonhole(Positions(q, msgs), Positions(q', msgs'), UpTo(n));
    x :| x in q && msgs[x].id.paxosID == id;
    y :| y in q' && msgs'[y].id.paxosID == id;
  }
}
