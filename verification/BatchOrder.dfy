/**
 * Exactly-once execution: when the requests of a client run as 0, 1, 2, ...
 *
 * Batch points are taken in the order in which quorums complete, batches are executed
 * in the order of their numbers. For one client the ranges of the commits are blocks
 * of numbers; the question is what their concatenation in batch order is.
 */
module BatchOrder {
  import opened Group
  import opened Batching
  import opened BatchPoints
  import opened BatchQuorum
  import opened BatchAcceptors
  import opened BatchFacts
  import opened BatchSafety
  import opened BatchTheorems

  // ----- The numbers of one client

  /** The sequence numbers of one client's requests, in the order of execution. */
  function NumbersOf(reqs: seq<Request>, c: Client): seq<nat>
    decreases |reqs|
  {
    if reqs == [] then []
    else
      var n := |reqs| - 1;
      NumbersOf(reqs[..n], c) + if reqs[n].id == c then [reqs[n].seqNo] else []
  }

  lemma {:induction false} NumbersOfJoin(a: seq<Request>, b: seq<Request>, c: Client)
    ensures NumbersOf(a + b, c) == NumbersOf(a, c) + NumbersOf(b, c)
    decreases |b|
  {
    if b == [] {
      assert a + b == a;
    } else {
      var n := |b| - 1;
      assert (a + b)[..|a| + n] == a + b[..n];
      NumbersOfJoin(a, b[..n], c);
    }
  }

  lemma {:induction false} NumbersOfRange(content: Content, c: Client, d: Client, start: nat, end: nat)
    requires Named(content) && end <= MAX_UINT32
    ensures NumbersOf(RangeContent(content, d, start, end), c) == if d == c then Numbers(start, end) else []
    decreases end
  {
    if start < end {
      var reqs := RangeContent(content, d, start, end - 1);
      NumbersOfRange(content, c, d, start, end - 1);
      assert (reqs + [content(d, end - 1)])[..|reqs|] == reqs;
    }
  }

  lemma NumbersOfLast(content: Content, ranges: RangeMap, ids: seq<Client>, c: Client)
    requires Named(content) && ids != [] && (forall d :: d in ids ==> d in ranges)
    ensures var n := |ids| - 1;
            NumbersOf(ListedContent(content, ranges, ids), c) ==
              NumbersOf(ListedContent(content, ranges, ids[..n]), c) +
              if ids[n] == c then RangeNumbers(ranges, c) else []
  {
    var n := |ids| - 1;
    var r := ranges[ids[n]];
    NumbersOfRange(content, c, ids[n], r.start, r.stop + 1);
    NumbersOfJoin(ListedContent(content, ranges, ids[..n]), RangeContent(content, ids[n], r.start, r.stop + 1), c);
  }

  lemma {:induction false} NumbersOfListed(content: Content, ranges: RangeMap, ids: seq<Client>, c: Client)
    requires Named(content) && (forall d :: d in ids ==> d in ranges)
    requires forall i: nat, j: nat :: i < j < |ids| ==> ids[i] != ids[j]
    ensures NumbersOf(ListedContent(content, ranges, ids), c) == if c in ids then RangeNumbers(ranges, c) else []
    decreases |ids|
  {
    if ids != [] {
      var n := |ids| - 1;
      NumbersOfListed(content, ranges, ids[..n], c);
      NumbersOfLast(content, ranges, ids, c);
      assert ids[n] !in ids[..n];
      assert c in ids <==> c in ids[..n] || c == ids[n];
    }
  }

  lemma NumbersOfBatch(content: Content, table: Table, n: nat, c: Client)
    requires Named(content)
    ensures NumbersOf(History(content, table, n + 1), c) ==
              NumbersOf(History(content, table, n), c) + RangeNumbers(table(n), c)
  {
    var ids := SortedKeys(table(n).Keys);
    SortedNoRepeat(table(n).Keys);
    NumbersOfListed(content, table(n), ids, c);
    NumbersOfJoin(History(content, table, n), ListedContent(content, table(n), ids), c);
    assert c in ids <==> c in table(n);
  }

  /** How the numbers of one client grow with the batches. */
  ghost function Growth(content: Content, table: Table, c: Client): nat -> seq<nat> {
    (n: nat) => NumbersOf(History(content, table, n), c)
  }

  ghost predicate GrowsBy(f: nat -> seq<nat>, k: nat, added: seq<nat>) {
    f(k + 1) == f(k) + added
  }

  lemma BatchGrows(content: Content, table: Table, n: nat, c: Client)
    requires Named(content)
    ensures GrowsBy(Growth(content, table, c), n, RangeNumbers(table(n), c))
  {
    NumbersOfBatch(content, table, n, c);
  }

  lemma {:induction false} NothingCommitted(commits: seq<BatchCommit>, b: nat)
    requires forall k: nat :: k < |commits| ==> commits[k].batchID != b
    ensures RangesFor(commits, b) == map[]
    decreases |commits|
  {
    if commits != [] {
      NothingCommitted(commits[..|commits| - 1], b);
    }
  }

  lemma PrefixOfNumbers(s: seq<nat>, h: nat)
    requires s <= Numbers(0, h)
    ensures s == Numbers(0, |s|)
  {
    NumbersAt(0, h);
    NumbersAt(0, |s|);
    assert forall k: nat :: k < |s| ==> s[k] == Numbers(0, h)[k] == Numbers(0, |s|)[k];
  }

  // ----- Concatenated blocks

  function Concat(f: nat -> seq<nat>, n: nat): seq<nat> {
    if n == 0 then [] else Concat(f, n - 1) + f(n - 1)
  }

  predicate Rising(s: seq<nat>) {
    forall i: nat, j: nat :: i < j < |s| ==> s[i] < s[j]
  }

  /** All numbers of the one block are below all numbers of the other. */
  ghost predicate Below(a: seq<nat>, b: seq<nat>) {
    forall x, y :: x in a && y in b ==> x < y
  }

  lemma {:induction false} ConcatMember(f: nat -> seq<nat>, n: nat, x: nat)
    ensures x in Concat(f, n) <==> exists a: nat :: a < n && x in f(a)
  {
    if n > 0 {
      ConcatMember(f, n - 1, x);
      assert x in Concat(f, n) <==> x in Concat(f, n - 1) || x in f(n - 1);
    }
  }

  lemma RisingSplit(s: seq<nat>, t: seq<nat>)
    requires Rising(s + t)
    ensures Rising(s) && Below(s, t)
  {
    assert forall i: nat :: i < |s| ==> (s + t)[i] == s[i];
    forall x, y | x in s && y in t
      ensures x < y
    {
      var i: nat :| i < |s| && s[i] == x;
      var j: nat :| j < |t| && t[j] == y;
      assert (s + t)[i] < (s + t)[|s| + j];
    }
  }

  lemma RisingJoin(s: seq<nat>, t: seq<nat>)
    requires Rising(s) && Rising(t) && Below(s, t)
    ensures Rising(s + t)
  {
    forall i: nat, j: nat | i < j < |s + t|
      ensures (s + t)[i] < (s + t)[j]
    {
      if i < |s| <= j {
        assert s[i] in s && t[j - |s|] in t;
      }
    }
  }

  /** In a rising concatenation earlier blocks are below later ones. */
  lemma {:induction false} RisingBlocks(f: nat -> seq<nat>, n: nat, a: nat, b: nat)
    requires Rising(Concat(f, n)) && a < b < n
    ensures Below(f(a), f(b))
  {
    RisingSplit(Concat(f, n - 1), f(n - 1));
    if b < n - 1 {
      RisingBlocks(f, n - 1, a, b);
    } else {
      forall x | x in f(a)
        ensures x in Concat(f, n - 1)
      {
        ConcatMember(f, n - 1, x);
      }
    }
  }

  lemma {:induction false} BlocksRise(f: nat -> seq<nat>, n: nat)
    requires forall a: nat :: a < n ==> Rising(f(a))
    requires forall a: nat, b: nat :: a < b < n ==> Below(f(a), f(b))
    ensures Rising(Concat(f, n))
  {
    if n > 0 {
      BlocksRise(f, n - 1);
      var all, last := Concat(f, n - 1), f(n - 1);
      forall x, y | x in all && y in last
        ensures x < y
      {
        ConcatMember(f, n - 1, x);
        var a: nat :| a < n - 1 && x in f(a);
        assert Below(f(a), last);
      }
      RisingJoin(Concat(f, n - 1), f(n - 1));
    }
  }

  /** A rising sequence of exactly the numbers below h is 0, 1, ..., h - 1. */
  lemma {:induction false} RisingIsNumbers(s: seq<nat>, h: nat)
    requires Rising(s) && forall x: nat :: x in s <==> x < h
    ensures s == Numbers(0, h)
    decreases |s|
  {
    if s == [] {
      assert h > 0 ==> h - 1 in s;
    } else {
      var n := |s| - 1;
      assert s[n] in s && h - 1 in s;
      var i: nat :| i < |s| && s[i] == h - 1;
      assert i == n;
      forall x: nat
        ensures x in s[..n] <==> x < h - 1
      {
        if x < h - 1 {
          assert x in s;
        }
        if x in s[..n] {
          var j: nat :| j < n && s[j] == x;
        }
      }
      RisingIsNumbers(s[..n], h - 1);
    }
  }

  lemma NumbersRise(lo: nat, hi: nat)
    ensures Rising(Numbers(lo, hi))
    ensures forall x: nat :: x in Numbers(lo, hi) <==> lo <= x < hi
  {
    NumbersAt(lo, hi);
    forall x: nat | lo <= x < hi
      ensures x in Numbers(lo, hi)
    {
      assert Numbers(lo, hi)[x - lo] == x;
    }
  }

  // ----- The blocks of a client in the order of commits and in the order of batches

  function CommitBlocks(commits: seq<BatchCommit>, c: Client): nat -> seq<nat> {
    (k: nat) => if k < |commits| then RangeNumbers(commits[k].ranges, c) else []
  }

  function BatchBlocks(commits: seq<BatchCommit>, c: Client): nat -> seq<nat> {
    (b: nat) => RangeNumbers(RangesFor(commits, b), c)
  }

  lemma {:induction false} GrowthIsConcat(f: nat -> seq<nat>, g: nat -> seq<nat>, n: nat)
    requires f(0) == [] && forall k: nat :: k < n ==> GrowsBy(f, k, g(k))
    ensures f(n) == Concat(g, n)
  {
    if n > 0 {
      GrowthIsConcat(f, g, n - 1);
      assert GrowsBy(f, n - 1, g(n - 1));
    }
  }

  /** What a replica runs of a client are its blocks in batch order. */
  lemma ExecutedIsConcat(content: Content, commits: seq<BatchCommit>, n: nat, c: Client)
    requires Named(content)
    ensures NumbersOf(History(content, TableOf(commits), n), c) == Concat(BatchBlocks(commits, c), n)
  {
    var f := Growth(content, TableOf(commits), c);
    forall k: nat | k < n
      ensures GrowsBy(f, k, BatchBlocks(commits, c)(k))
    {
      BatchGrows(content, TableOf(commits), k, c);
    }
    GrowthIsConcat(f, BatchBlocks(commits, c), n);
  }

  lemma RangesNext(commits: seq<BatchCommit>, k: nat)
    requires k < |commits|
    ensures RangesOf(commits)[..k + 1] == RangesOf(commits)[..k] + [commits[k].ranges]
  {
  }

  lemma {:induction false} HandedOutIsConcat(commits: seq<BatchCommit>, k: nat, c: Client)
    requires k <= |commits|
    ensures AllNumbers(RangesOf(commits)[..k], c) == Concat(CommitBlocks(commits, c), k)
  {
    if k > 0 {
      var n := k - 1;
      HandedOutIsConcat(commits, n, c);
      AllNumbersNext(RangesOf(commits)[..n], commits[n].ranges, c);
      RangesNext(commits, n);
      assert CommitBlocks(commits, c)(n) == RangeNumbers(commits[n].ranges, c);
    }
  }

  ghost predicate DistinctBatches(commits: seq<BatchCommit>) {
    forall j: nat, k: nat :: j < k < |commits| ==> commits[j].batchID != commits[k].batchID
  }

  /** The commits that concern the client were sent in the order of their batches. */
  ghost predicate InOrderFor(commits: seq<BatchCommit>, c: Client) {
    forall j: nat, k: nat :: j < k < |commits| && c in commits[j].ranges && c in commits[k].ranges ==>
      commits[j].batchID < commits[k].batchID
  }

  lemma BlockOfCommit(commits: seq<BatchCommit>, k: nat, c: Client)
    requires DistinctBatches(commits) && k < |commits|
    ensures BatchBlocks(commits, c)(commits[k].batchID) == CommitBlocks(commits, c)(k)
  {
    CommittedOnce(commits, k);
  }

  /** A block with a number in it belongs to a commit. */
  lemma CommitOfBlock(commits: seq<BatchCommit>, b: nat, c: Client, x: nat) returns (k: nat)
    requires DistinctBatches(commits) && x in BatchBlocks(commits, c)(b)
    ensures k < |commits| && commits[k].batchID == b && c in commits[k].ranges && x in CommitBlocks(commits, c)(k)
  {
    if forall j: nat :: j < |commits| ==> commits[j].batchID != b {
      NothingCommitted(commits, b);
      assert false;
    }
    k :| k < |commits| && commits[k].batchID == b;
    BlockOfCommit(commits, k, c);
  }

  lemma BlocksAreRising(commits: seq<BatchCommit>, c: Client)
    ensures forall k: nat :: Rising(CommitBlocks(commits, c)(k)) && Rising(BatchBlocks(commits, c)(k))
  {
    forall ranges: RangeMap
      ensures Rising(RangeNumbers(ranges, c))
    {
      if c in ranges {
        NumbersRise(ranges[c].start, ranges[c].stop + 1);
      }
    }
  }

  lemma {:induction false} PointedOrdered(nbps: seq<BatchPoint>, k: nat)
    requires k < |Pointed(nbps).1|
    ensures Ordered(Pointed(nbps).1[k])
    decreases |nbps|
  {
    var n := |nbps| - 1;
    var (points, batches) := Pointed(nbps[..n]);
    TriedOrdered(points, nbps[n]);
    if k < |batches| {
      PointedOrdered(nbps[..n], k);
    }
  }

  /** The first number of a block, when the client has one. */
  lemma FirstOfBlock(nbps: seq<BatchPoint>, commits: seq<BatchCommit>, k: nat, c: Client)
    requires Pointed(nbps).1 == RangesOf(commits) && k < |commits| && c in commits[k].ranges
    ensures commits[k].ranges[c].start in CommitBlocks(commits, c)(k)
  {
    PointedOrdered(nbps, k);
    assert RangesOf(commits)[k] == commits[k].ranges;
    NumbersRise(commits[k].ranges[c].start, commits[k].ranges[c].stop + 1);
  }

  // ----- When a client's requests run as 0, 1, 2, ...

  /** A client that was dropped and is back is handed the number 0 in two batches. */
  lemma {:induction false} BackStartsTwice(nbps: seq<BatchPoint>, c: Client)
    requires ComesBack(Pointed(nbps).0, c)
    ensures exists j: nat, k: nat :: StartsAgain(Pointed(nbps).1, c, j, k)
    decreases |nbps|
  {
    var n := |nbps| - 1;
    var (points, batches) := Pointed(nbps[..n]);
    var (points', done, ranges) := Tried(points, nbps[n]);
    StepNumbers(points, nbps[n], c);
    if ComesBack(points, c) {
      BackStartsTwice(nbps[..n], c);
      var j: nat, k: nat :| StartsAgain(batches, c, j, k);
      assert StartsAgain(batches + [ranges], c, j, k);
    } else {
      BackNow(points, points', c);
      TilesUnlessBack(nbps[..n], c);
      NumbersRise(0, Reach(points, c));
      NumbersRise(0, Reach(points', c));
      var j := BatchWith(batches, c, 0);
      assert StartsAgain(batches + [ranges], c, j, |batches|);
    }
  }

  ghost predicate StartsAgain(batches: seq<RangeMap>, c: Client, j: nat, k: nat) {
    j < k < |batches| && 0 in RangeNumbers(batches[j], c) && 0 in RangeNumbers(batches[k], c)
  }

  lemma {:induction false} BatchWith(batches: seq<RangeMap>, c: Client, x: nat) returns (j: nat)
    requires x in AllNumbers(batches, c)
    ensures j < |batches| && x in RangeNumbers(batches[j], c)
    decreases |batches|
  {
    var n := |batches| - 1;
    if x in RangeNumbers(batches[n], c) {
      j := n;
    } else {
      j := BatchWith(batches[..n], c, x);
    }
  }

  ghost predicate Tiles(numbers: seq<nat>) {
    exists h :: numbers == Numbers(0, h)
  }

  /** Executed in batch order without gap or repetition, the client was never dropped and back. */
  lemma TiledIsNotBack(nbps: seq<BatchPoint>, commits: seq<BatchCommit>, n: nat, c: Client)
    requires Pointed(nbps).1 == RangesOf(commits) && DistinctBatches(commits)
    requires forall k: nat :: k < |commits| ==> commits[k].batchID < n
    requires Rising(Concat(BatchBlocks(commits, c), n))
    ensures !ComesBack(Pointed(nbps).0, c)
  {
    if ComesBack(Pointed(nbps).0, c) {
      BackStartsTwice(nbps, c);
      var j: nat, k: nat :| StartsAgain(RangesOf(commits), c, j, k);
      BlockOfCommit(commits, j, c);
      BlockOfCommit(commits, k, c);
      var a, b := commits[j].batchID, commits[k].batchID;
      RisingBlocks(BatchBlocks(commits, c), n, if a < b then a else b, if a < b then b else a);
      assert false;
    }
  }

  lemma TiledIsInOrder(nbps: seq<BatchPoint>, commits: seq<BatchCommit>, n: nat, c: Client)
    requires Pointed(nbps).1 == RangesOf(commits) && DistinctBatches(commits)
    requires forall k: nat :: k < |commits| ==> commits[k].batchID < n
    requires Rising(Concat(BatchBlocks(commits, c), n)) && !ComesBack(Pointed(nbps).0, c)
    ensures InOrderFor(commits, c)
  {
    CommitsRise(nbps, commits, c);
    forall j: nat, k: nat | j < k < |commits| && c in commits[j].ranges && c in commits[k].ranges
      ensures commits[j].batchID < commits[k].batchID
    {
      FirstOfBlock(nbps, commits, j, c);
      FirstOfBlock(nbps, commits, k, c);
      RisingBlocks(CommitBlocks(commits, c), |commits|, j, k);
      BlockOfCommit(commits, j, c);
      BlockOfCommit(commits, k, c);
      if commits[k].batchID < commits[j].batchID {
        RisingBlocks(BatchBlocks(commits, c), n, commits[k].batchID, commits[j].batchID);
        assert false;
      }
    }
  }

  /** Unless the client was dropped and is back, its numbers rise from commit to commit. */
  lemma CommitsRise(nbps: seq<BatchPoint>, commits: seq<BatchCommit>, c: Client)
    requires Pointed(nbps).1 == RangesOf(commits) && !ComesBack(Pointed(nbps).0, c)
    ensures Concat(CommitBlocks(commits, c), |commits|) == Numbers(0, Reach(Pointed(nbps).0, c))
    ensures Rising(Concat(CommitBlocks(commits, c), |commits|))
  {
    TilesUnlessBack(nbps, c);
    HandedOutIsConcat(commits, |commits|, c);
    assert RangesOf(commits)[..|commits|] == RangesOf(commits);
    NumbersRise(0, Reach(Pointed(nbps).0, c));
  }

  /** Blocks whose order is the same in commits and batches rise in the order of batches. */
  lemma BatchesRise(nbps: seq<BatchPoint>, commits: seq<BatchCommit>, n: nat, c: Client)
    requires Pointed(nbps).1 == RangesOf(commits) && DistinctBatches(commits)
    requires !ComesBack(Pointed(nbps).0, c) && InOrderFor(commits, c)
    ensures Rising(Concat(BatchBlocks(commits, c), n))
  {
    var f := BatchBlocks(commits, c);
    CommitsRise(nbps, commits, c);
    BlocksAreRising(commits, c);
    forall a: nat, b: nat | a < b < n
      ensures Below(f(a), f(b))
    {
      BlocksInOrder(commits, a, b, c);
    }
    BlocksRise(f, n);
  }

  lemma BlocksInOrder(commits: seq<BatchCommit>, a: nat, b: nat, c: Client)
    requires DistinctBatches(commits) && InOrderFor(commits, c) && a < b
    requires Rising(Concat(CommitBlocks(commits, c), |commits|))
    ensures Below(BatchBlocks(commits, c)(a), BatchBlocks(commits, c)(b))
  {
    var s, t := BatchBlocks(commits, c)(a), BatchBlocks(commits, c)(b);
    forall x, y | x in s && y in t
      ensures x < y
    {
      NumbersInOrder(commits, a, b, c, x, y);
    }
  }

  lemma CommitsInOrder(commits: seq<BatchCommit>, j: nat, k: nat, c: Client)
    requires InOrderFor(commits, c) && j < |commits| && k < |commits|
    requires c in commits[j].ranges && c in commits[k].ranges && commits[j].batchID < commits[k].batchID
    ensures j < k
  {
  }

  lemma NumbersBelow(f: nat -> seq<nat>, n: nat, j: nat, k: nat, x: nat, y: nat)
    requires Rising(Concat(f, n)) && j < k < n && x in f(j) && y in f(k)
    ensures x < y
  {
    RisingBlocks(f, n, j, k);
  }

  lemma NumbersInOrder(commits: seq<BatchCommit>, a: nat, b: nat, c: Client, x: nat, y: nat)
    requires DistinctBatches(commits) && InOrderFor(commits, c) && a < b
    requires Rising(Concat(CommitBlocks(commits, c), |commits|))
    requires x in BatchBlocks(commits, c)(a) && y in BatchBlocks(commits, c)(b)
    ensures x < y
  {
    var j := CommitOfBlock(commits, a, c, x);
    var k := CommitOfBlock(commits, b, c, y);
    CommitsInOrder(commits, j, k, c);
    NumbersBelow(CommitBlocks(commits, c), |commits|, j, k, x, y);
  }

  lemma SameNumbers(commits: seq<BatchCommit>, n: nat, c: Client, x: nat)
    requires DistinctBatches(commits) && forall k: nat :: k < |commits| ==> commits[k].batchID < n
    ensures x in Concat(BatchBlocks(commits, c), n) <==> x in Concat(CommitBlocks(commits, c), |commits|)
  {
    ConcatMember(BatchBlocks(commits, c), n, x);
    ConcatMember(CommitBlocks(commits, c), |commits|, x);
    if x in Concat(BatchBlocks(commits, c), n) {
      var b: nat :| b < n && x in BatchBlocks(commits, c)(b);
      var _ := CommitOfBlock(commits, b, c, x);
    }
    if x in Concat(CommitBlocks(commits, c), |commits|) {
      var k: nat :| k < |commits| && x in CommitBlocks(commits, c)(k);
      BlockOfCommit(commits, k, c);
    }
  }

  lemma OrderedIsTiled(nbps: seq<BatchPoint>, commits: seq<BatchCommit>, n: nat, c: Client)
    requires Pointed(nbps).1 == RangesOf(commits) && DistinctBatches(commits)
    requires forall k: nat :: k < |commits| ==> commits[k].batchID < n
    requires !ComesBack(Pointed(nbps).0, c) && InOrderFor(commits, c)
    ensures Concat(BatchBlocks(commits, c), n) == Numbers(0, Reach(Pointed(nbps).0, c))
  {
    var h := Reach(Pointed(nbps).0, c);
    CommitsRise(nbps, commits, c);
    BatchesRise(nbps, commits, n, c);
    NumbersRise(0, h);
    forall x: nat
      ensures x in Concat(BatchBlocks(commits, c), n) <==> x < h
    {
      SameNumbers(commits, n, c, x);
    }
    RisingIsNumbers(Concat(BatchBlocks(commits, c), n), h);
  }

  /**
   * Once all commits of a leader are executed, a client's requests have run as 0, 1, 2, ...
   * if and only if the client was never dropped from a batch point and back, and the
   * commits with requests of this client were sent in the order of their batches.
   */
  lemma TilesInBatchOrderIff(content: Content, points: seq<BatchPoint>, commits: seq<BatchCommit>, n: nat, c: Client)
    requires Named(content) && Pointing(points, commits) && DistinctBatches(commits)
    requires forall k: nat :: k < |commits| ==> commits[k].batchID < n
    ensures Tiles(NumbersOf(History(content, TableOf(commits), n), c)) <==>
            !ComesBack(points, c) && InOrderFor(commits, c)
  {
    var nbps :| Pointed(nbps) == (points, RangesOf(commits));
    ExecutedIsConcat(content, commits, n, c);
    var numbers := Concat(BatchBlocks(commits, c), n);
    if Tiles(numbers) {
      var h :| numbers == Numbers(0, h);
      NumbersRise(0, h);
      TiledIsNotBack(nbps, commits, n, c);
      TiledIsInOrder(nbps, commits, n, c);
    }
    if !ComesBack(points, c) && InOrderFor(commits, c) {
      OrderedIsTiled(nbps, commits, n, c);
    }
  }

  // ----- Runs

  /** A number above all batches that were committed, and at least n. */
  function Bound(commits: seq<BatchCommit>, n: nat): (m: nat)
    ensures m >= n && forall k: nat :: k < |commits| ==> commits[k].batchID < m
    decreases |commits|
  {
    if commits == [] then n
    else
      var m := Bound(commits[..|commits| - 1], n);
      if commits[|commits| - 1].batchID < m then m else commits[|commits| - 1].batchID + 1
  }

  lemma {:induction false} ConcatGrows(f: nat -> seq<nat>, m: nat, n: nat)
    requires m <= n
    ensures Concat(f, m) <= Concat(f, n)
  {
    if m < n {
      ConcatGrows(f, m, n - 1);
    }
  }

  /**
   * Exactly-once execution, under one leader. The guard: the client was never dropped from
   * the leader's batch points and back, and the leader's commits with requests of this
   * client are in batch order. Under the guard every replica has at every moment executed
   * the client's requests 0, 1, 2, ... up to some number, each once and in this order. Of a
   * replica that has executed all commits, this is so if and only if the guard holds.
   */
  lemma ExactlyOnce(content: Content, tr: seq<System>, leader: ID, q: ID, c: Client)
    requires Named(content) && Run(content, tr) && OneLeader(tr[|tr| - 1], leader) && q in tr[|tr| - 1].reps
    ensures var s := tr[|tr| - 1];
            var commits := Commits(s.reps[leader].bcast);
            var guard := !ComesBack(s.reps[leader].points, c) && InOrderFor(commits, c);
            && (guard ==> Tiles(NumbersOf(s.reps[q].executed, c)))
            && ((forall k: nat :: k < |commits| ==> commits[k].batchID < s.reps[q].batchAru) ==>
                  (Tiles(NumbersOf(s.reps[q].executed, c)) <==> guard))
    ensures Genuine(content, tr[|tr| - 1].reps[q].executed)
  {
    var s := tr[|tr| - 1];
    var commits, points := Commits(s.reps[leader].bcast), s.reps[leader].points;
    OneLeaderGivesTable(content, tr, leader);
    ExecutesTheTable(content, TableOf(commits), tr, q);
    RunLeads(content, tr);
    assert Leading(s.reps[leader]);
    var n := s.reps[q].batchAru;
    if forall k: nat :: k < |commits| ==> commits[k].batchID < n {
      TilesInBatchOrderIff(content, points, commits, n, c);
    }
    if !ComesBack(points, c) && InOrderFor(commits, c) {
      PartlyTiled(content, points, commits, n, c);
    }
  }

  lemma PartlyTiled(content: Content, points: seq<BatchPoint>, commits: seq<BatchCommit>, n: nat, c: Client)
    requires Named(content) && Pointing(points, commits) && DistinctBatches(commits)
    requires !ComesBack(points, c) && InOrderFor(commits, c)
    ensures Tiles(NumbersOf(History(content, TableOf(commits), n), c))
  {
    var m := Bound(commits, n);
    var nbps :| Pointed(nbps) == (points, RangesOf(commits));
    ExecutedIsConcat(content, commits, n, c);
    OrderedIsTiled(nbps, commits, m, c);
    ConcatGrows(BatchBlocks(commits, c), n, m);
    PrefixOfNumbers(Concat(BatchBlocks(commits, c), n), Reach(points, c));
  }

  // ----- Quorums out of order

  /** The commits of a leader that completes the quorum of batch 1 first, with client c at x, then at y. */
  function ReversedCommits(leader: ID, c: Client, x: Seq, y: Seq): seq<BatchCommit>
    requires x < y
  {
    [BatchCommit(leader, 1, map[c := ClientRange(0, x)]), BatchCommit(leader, 0, map[c := ClientRange(x + 1, y)])]
  }

  /** A leader with a quorum of two that has handled some learns. */
  ghost predicate Reached(leader: State, states: States, points: seq<BatchPoint>, commits: seq<BatchCommit>) {
    && leader.quorumSize == 2 && leader.points == points && Commits(leader.bcast) == commits
    && StateAt(leader.states, 0) == StateAt(states, 0) && StateAt(leader.states, 1) == StateAt(states, 1)
  }

  function Waiting(learns: seq<BatchLearn>): BatchState {
    NEW_STATE.(learns := learns)
  }

  /** A learn that completes no quorum is only put on record. */
  lemma LearnWaits(st: State, states: States, points: seq<BatchPoint>, commits: seq<BatchCommit>, msg: BatchLearn)
    requires Reached(st, states, points, commits) && msg.batchID < 2
    requires StateAt(states, msg.batchID) == NEW_STATE
    ensures HandleLearn(st, msg).id == st.id
    ensures Reached(HandleLearn(st, msg), states[msg.batchID := Waiting([msg])], points, commits)
  {
    assert StateAt(st.states, msg.batchID) == NEW_STATE && [] + [msg] == [msg];
    assert Learnt(st, msg) == Waiting([msg]);
    assert Senders([msg]) == {msg.id};
    assert !NewQuorum(st, Learnt(st, msg));
  }

  /** The learn of a second replica completes the quorum, and a commit is sent. */
  lemma LearnCommits(st: State, states: States, points: seq<BatchPoint>, commits: seq<BatchCommit>,
                     first: BatchLearn, msg: BatchLearn)
    requires Reached(st, states, points, commits) && msg.batchID < 2 && first.id != msg.id
    requires StateAt(states, msg.batchID) == Waiting([first])
    ensures HandleLearn(st, msg).id == st.id
    ensures var (points', _, ranges) := Tried(points, Intersection([first, msg]));
            var done := Waiting([first, msg]).(learnsNotified := true);
            Reached(HandleLearn(st, msg), states[msg.batchID := done], points',
                    commits + [BatchCommit(st.id, msg.batchID, ranges)])
  {
    assert [first] + [msg] == [first, msg];
    assert StateAt(st.states, msg.batchID) == Waiting([first]);
    var state := Learnt(st, msg);
    assert state == Waiting([first, msg]);
    assert Senders(state.learns) == {first.id, msg.id} by {
      assert first in state.learns && msg in state.learns;
    }
    assert NewQuorum(st, state);
    var ranges := Tried(points, Intersection(state.learns)).2;
    CommitsNext(st.bcast, CommitMsg(BatchCommit(st.id, msg.batchID, ranges)));
  }

  lemma TwoLearns(c: Client, x: Seq, y: Seq, a: BatchLearn, b: BatchLearn)
    requires a.hss == map[c := y] && b.hss == map[c := x]
    ensures Intersection([a, b]) == map[c := if x < y then x else y]
  {
    var learns := [a, b];
    assert learns[..1] == [a];
    assert InAll(learns, c) && InAll([a], c);
    assert Lowest([a], c) == y;
  }

  /** The leader after the learns, one after the other. */
  ghost function Handled(st: State, learns: seq<BatchLearn>): State
    decreases |learns|
  {
    if learns == [] then st else HandleLearn(Handled(st, learns[..|learns| - 1]), learns[|learns| - 1])
  }

  /**
   * Replica r has sent its learns for batches 0 and 1, s is behind and its learn for batch 1
   * arrives before t's for batch 0. Each replica's learns are as its log grows.
   */
  function CrossingLearns(r: ID, s: ID, t: ID, c: Client, x: Seq, y: Seq, z: Seq): seq<BatchLearn> {
    [BatchLearn(r, 0, map[c := y]), BatchLearn(r, 1, map[c := z]),
     BatchLearn(s, 1, map[c := x]), BatchLearn(t, 0, map[c := y])]
  }

  /** A fresh leader that handles these learns sends the reversed commits. */
  lemma CrossingLearnsReverse(st: State, r: ID, s: ID, t: ID, c: Client, x: Seq, y: Seq, z: Seq)
    requires st.quorumSize == 2 && st.states == map[] && st.points == [] && st.bcast == []
    requires r != s && r != t && x < y < z
    ensures var done := Handled(st, CrossingLearns(r, s, t, c, x, y, z));
            Commits(done.bcast) == ReversedCommits(st.id, c, x, y) && done.points == [map[c := x], map[c := y]]
  {
    var ls := CrossingLearns(r, s, t, c, x, y, z);
    HandledNext(st, ls);
    FirstLearnsWait(st, ls[0], ls[1]);
    LastTwoReverse(HandleLearn(HandleLearn(st, ls[0]), ls[1]), ls, c, x, y, z);
  }

  lemma LastTwoReverse(t: State, ls: seq<BatchLearn>, c: Client, x: Seq, y: Seq, z: Seq)
    requires |ls| == 4 && Reached(t, map[0 := Waiting([ls[0]]), 1 := Waiting([ls[1]])], [], []) && x < y < z
    requires ls[2].batchID == 1 && ls[3].batchID == 0 && ls[1].id != ls[2].id && ls[0].id != ls[3].id
    requires ls[0].hss == ls[3].hss == map[c := y] && ls[1].hss == map[c := z] && ls[2].hss == map[c := x]
    ensures var done := HandleLearn(HandleLearn(t, ls[2]), ls[3]);
            Commits(done.bcast) == ReversedCommits(t.id, c, x, y) && done.points == [map[c := x], map[c := y]]
  {
    ThirdLearnCommits(t, ls, c, x, y, z);
    FourthLearnCommits(HandleLearn(t, ls[2]), ls, c, x, y);
  }

  lemma ThirdLearnCommits(st: State, ls: seq<BatchLearn>, c: Client, x: Seq, y: Seq, z: Seq)
    requires |ls| == 4 && ls[1].id != ls[2].id && ls[2].batchID == 1 && x < y < z
    requires ls[1].hss == map[c := z] && ls[2].hss == map[c := x]
    requires Reached(st, map[0 := Waiting([ls[0]]), 1 := Waiting([ls[1]])], [], [])
    ensures var t := HandleLearn(st, ls[2]);
            && t.id == st.id && t.quorumSize == 2 && t.points == [map[c := x]]
            && StateAt(t.states, 0) == Waiting([ls[0]])
            && Commits(t.bcast) == [BatchCommit(st.id, 1, map[c := ClientRange(0, x)])]
  {
    var states: States := map[0 := Waiting([ls[0]]), 1 := Waiting([ls[1]])];
    TwoLearns(c, x, z, ls[1], ls[2]);
    TwoTries(c, x, y);
    LearnCommits(st, states, [], [], ls[1], ls[2]);
    var commit := BatchCommit(st.id, 1, map[c := ClientRange(0, x)]);
    assert [] + [commit] == [commit];
  }

  lemma FourthLearnCommits(st: State, ls: seq<BatchLearn>, c: Client, x: Seq, y: Seq)
    requires |ls| == 4 && ls[0].id != ls[3].id && ls[3].batchID == 0 && x < y
    requires ls[0].hss == map[c := y] && ls[3].hss == map[c := y]
    requires st.quorumSize == 2 && st.points == [map[c := x]] && StateAt(st.states, 0) == Waiting([ls[0]])
    ensures var t := HandleLearn(st, ls[3]);
            && t.points == [map[c := x], map[c := y]]
            && Commits(t.bcast) == Commits(st.bcast) + [BatchCommit(st.id, 0, map[c := ClientRange(x + 1, y)])]
  {
    TwoLearns(c, y, y, ls[0], ls[3]);
    TwoTries(c, x, y);
    LearnCommits(st, st.states, st.points, Commits(st.bcast), ls[0], ls[3]);
  }

  lemma FirstLearnsWait(st: State, a: BatchLearn, b: BatchLearn)
    requires st.quorumSize == 2 && st.states == map[] && st.points == [] && st.bcast == []
    requires a.batchID == 0 && b.batchID == 1
    ensures var t := HandleLearn(HandleLearn(st, a), b);
            t.id == st.id && Reached(t, map[0 := Waiting([a]), 1 := Waiting([b])], [], [])
  {
    var s0: States := map[];
    LearnWaits(st, s0, [], [], a);
    LearnWaits(HandleLearn(st, a), s0[0 := Waiting([a])], [], [], b);
  }

  lemma HandledNext(st: State, ls: seq<BatchLearn>)
    requires |ls| == 4
    ensures Handled(st, ls) == HandleLearn(HandleLearn(HandleLearn(HandleLearn(st, ls[0]), ls[1]), ls[2]), ls[3])
  {
    assert ls[..3][..2] == ls[..2] && ls[..2][..1] == ls[..1] && ls[..1][..0] == [];
    assert Handled(st, ls[..1]) == HandleLearn(st, ls[0]);
    assert Handled(st, ls[..2]) == HandleLearn(Handled(st, ls[..1]), ls[1]);
    assert Handled(st, ls[..3]) == HandleLearn(Handled(st, ls[..2]), ls[2]);
  }

  lemma TwoTries(c: Client, x: Seq, y: Seq)
    requires x < y
    ensures var p0: BatchPoint, p1: BatchPoint := map[c := x], map[c := y];
            && Tried([], p0) == ([p0], true, map[c := ClientRange(0, x)])
            && Tried([p0], p1) == ([p0, p1], true, map[c := ClientRange(x + 1, y)])
  {
    var p0: BatchPoint, p1: BatchPoint := map[c := x], map[c := y];
    assert c in p0 && c in p1 && p0 != map[] && Advances(p0, p1) && Raised(p0, p1) == p1;
    assert RangesUpTo(p0) == map[c := ClientRange(0, x)];
    assert RangesBetween(p0, p1) == map[c := ClientRange(x + 1, y)];
    assert [p0] + [p1] == [p0, p1];
  }

  /** The client's requests then run out of order: from x + 1 to y, and then from 0 to x. */
  lemma CrossingLearnsRunBackwards(content: Content, st: State, r: ID, s: ID, t: ID,
                                   c: Client, x: Seq, y: Seq, z: Seq)
    requires Named(content) && r != s && r != t && x < y < z
    requires st.quorumSize == 2 && st.states == map[] && st.points == [] && st.bcast == []
    ensures var commits := Commits(Handled(st, CrossingLearns(r, s, t, c, x, y, z)).bcast);
            && !InOrderFor(commits, c)
            && NumbersOf(History(content, TableOf(commits), 2), c) == Numbers(x + 1, y + 1) + Numbers(0, x + 1)
  {
    CrossingLearnsReverse(st, r, s, t, c, x, y, z);
    ReversedRunBackwards(content, st.id, c, x, y);
  }

  lemma ReversedRunBackwards(content: Content, leader: ID, c: Client, x: Seq, y: Seq)
    requires Named(content) && x < y
    ensures var commits := ReversedCommits(leader, c, x, y);
            && !InOrderFor(commits, c)
            && NumbersOf(History(content, TableOf(commits), 2), c) == Numbers(x + 1, y + 1) + Numbers(0, x + 1)
  {
    var commits := ReversedCommits(leader, c, x, y);
    CommittedOnce(commits, 0);
    CommittedOnce(commits, 1);
    ExecutedIsConcat(content, commits, 2, c);
    ConcatOfTwo(BatchBlocks(commits, c));
    assert c in commits[0].ranges && c in commits[1].ranges && commits[0].batchID > commits[1].batchID;
  }

  lemma ConcatOfTwo(f: nat -> seq<nat>)
    ensures Concat(f, 2) == f(0) + f(1)
  {
    assert Concat(f, 1) == [] + f(0);
  }
}
