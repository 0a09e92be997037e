/**
 * Batch points at the leader (batchpaxos/batchpoint.go): which ranges of every
 * client's sequence numbers go into a batch, and when they tile.
 */
module BatchPoints {
  import opened Batching

  function RangesUpTo(bp: BatchPoint): RangeMap {
    map c | c in bp :: ClientRange(0, bp[c])
  }

  function RangesBetween(bp1: BatchPoint, bp2: BatchPoint): RangeMap {
    map c | c in bp2 && (c !in bp1 || bp2[c] > bp1[c]) :: ClientRange(if c in bp1 then bp1[c] + 1 else 0, bp2[c])
  }

  /** The new point never falls behind the last one, but has only the clients of nbp. */
  function Raised(last: BatchPoint, nbp: BatchPoint): BatchPoint {
    map c | c in nbp :: if c in last && nbp[c] <= last[c] then last[c] else nbp[c]
  }

  ghost predicate Advances(last: BatchPoint, nbp: BatchPoint) {
    exists c :: c in nbp && (c !in last || nbp[c] > last[c])
  }

  ghost function Tried(points: seq<BatchPoint>, nbp: BatchPoint): (seq<BatchPoint>, bool, RangeMap) {
    if points == [] then
      if nbp == map[] then (points, false, map[]) else ([nbp], true, RangesUpTo(nbp))
    else
      var last := points[|points| - 1];
      if Advances(last, nbp)
      then (points + [Raised(last, nbp)], true, RangesBetween(last, Raised(last, nbp)))
      else (points, false, map[])
  }

  method MakeRangeMap1(bp: BatchPoint) returns (rm: RangeMap)
    ensures rm == RangesUpTo(bp)
  {
    rm := map[];
    var left := bp.Keys;
    while left != {}
      invariant left <= bp.Keys
      invariant rm == map c | c in bp.Keys - left :: ClientRange(0, bp[c])
      decreases left
    {
      var cid :| cid in left;
      rm, left := rm[cid := ClientRange(0, bp[cid])], left - {cid};
    }
  }

  method MakeRangeMap2(bp1: BatchPoint, bp2: BatchPoint) returns (rm: RangeMap)
    ensures rm == RangesBetween(bp1, bp2)
  {
    rm := map[];
    var left := bp2.Keys;
    while left != {}
      invariant left <= bp2.Keys
      invariant rm == map c | c in bp2.Keys - left && (c !in bp1 || bp2[c] > bp1[c]) ::
                        ClientRange(if c in bp1 then bp1[c] + 1 else 0, bp2[c])
      decreases left
    {
      var cid :| cid in left;
      if cid !in bp1 {
        rm := rm[cid := ClientRange(0, bp2[cid])];
      } else if bp2[cid] > bp1[cid] {
        rm := rm[cid := ClientRange(bp1[cid] + 1, bp2[cid])];
      }
      left := left - {cid};
    }
  }

  class BatchPointer {
    var points: seq<BatchPoint>

    constructor ()
      ensures points == []
    {
      points := [];
    }

    method TryBatchPoint(nbp: BatchPoint) returns (done: bool, ranges: RangeMap)
      modifies this
      ensures (points, done, ranges) == Tried(old(points), nbp)
    {
      done, ranges := false, map[];
      if |points| == 0 {
        if |nbp| > 0 {
          assert points + [nbp] == [nbp];
          points := points + [nbp];
          ranges := MakeRangeMap1(nbp);
          done := true;
        }
        return;
      }
      var last := points[|points| - 1];
      var grtr, rmable := Greater(last, nbp);
      if rmable {
        points := points + [grtr];
        ranges := MakeRangeMap2(last, grtr);
        done := true;
      }
    }

    method Greater(last: BatchPoint, nbp: BatchPoint) returns (grtr: BatchPoint, rmable: bool)
      ensures grtr == Raised(last, nbp)
      ensures rmable == Advances(last, nbp)
    {
      grtr, rmable := map[], false;
      var left := nbp.Keys;
      while left != {}
        invariant left <= nbp.Keys
        invariant grtr == map c | c in nbp.Keys - left :: if c in last && nbp[c] <= last[c] then last[c] else nbp[c]
        invariant rmable <==> exists c :: c in nbp.Keys - left && (c !in last || nbp[c] > last[c])
        decreases left
      {
        var cid :| cid in left;
        if cid !in last || nbp[cid] > last[cid] {
          grtr, rmable := grtr[cid := nbp[cid]], true;
          assert cid in nbp.Keys - (left - {cid});
        } else {
          grtr := grtr[cid := last[cid]];
        }
        left := left - {cid};
      }
    }
  }

  // ----- The numbers handed out for one client

  /** lo, lo + 1, ..., hi - 1. */
  function Numbers(lo: nat, hi: nat): seq<nat> {
    if hi <= lo then [] else Numbers(lo, hi - 1) + [hi - 1]
  }

  function RangeNumbers(ranges: RangeMap, c: Client): seq<nat> {
    if c in ranges then Numbers(ranges[c].start, ranges[c].stop + 1) else []
  }

  /** The numbers of one client in successive batches. */
  function AllNumbers(batches: seq<RangeMap>, c: Client): seq<nat>
    decreases |batches|
  {
    if batches == [] then []
    else AllNumbers(batches[..|batches| - 1], c) + RangeNumbers(batches[|batches| - 1], c)
  }

  /** The batch points and the ranges after a series of intersections. */
  ghost function Pointed(nbps: seq<BatchPoint>): (seq<BatchPoint>, seq<RangeMap>)
    decreases |nbps|
  {
    if nbps == [] then ([], [])
    else
      var (points, batches) := Pointed(nbps[..|nbps| - 1]);
      var (points', _, ranges) := Tried(points, nbps[|nbps| - 1]);
      (points', batches + [ranges])
  }

  /** A client is gone from a batch point and back in a later one. */
  ghost predicate ComesBack(points: seq<BatchPoint>, c: Client) {
    exists i: nat, j: nat, k: nat :: i < j < k < |points| && c in points[i] && c !in points[j] && c in points[k]
  }

  lemma {:induction false} NumbersAt(lo: nat, hi: nat)
    ensures |Numbers(lo, hi)| == if hi <= lo then 0 else hi - lo
    ensures forall k: nat :: k < |Numbers(lo, hi)| ==> Numbers(lo, hi)[k] == lo + k
  {
    if lo < hi {
      NumbersAt(lo, hi - 1);
    }
  }

  lemma {:induction false} NumbersJoin(lo: nat, mid: nat, hi: nat)
    requires lo <= mid <= hi
    ensures Numbers(lo, mid) + Numbers(mid, hi) == Numbers(lo, hi)
  {
    if mid < hi {
      NumbersJoin(lo, mid, hi - 1);
    }
  }

  /** One past the number last handed out, zero before the first. */
  function Reach(points: seq<BatchPoint>, c: Client): nat
    decreases |points|
  {
    if points == [] then 0
    else if c in points[|points| - 1] then points[|points| - 1][c] + 1
    else Reach(points[..|points| - 1], c)
  }

  lemma {:induction false} ReachZero(points: seq<BatchPoint>, c: Client)
    ensures Reach(points, c) == 0 <==> forall j: nat :: j < |points| ==> c !in points[j]
  {
    if points != [] {
      var n := |points| - 1;
      ReachZero(points[..n], c);
      assert forall j: nat :: j < n ==> points[..n][j] == points[j];
    }
  }

  /** What one intersection adds to the numbers of a client. */
  lemma StepNumbers(points: seq<BatchPoint>, nbp: BatchPoint, c: Client)
    ensures var (points', done, ranges) := Tried(points, nbp);
            if done && c in nbp then
              && |points'| == |points| + 1 && points'[..|points|] == points && c in points'[|points|]
              && RangeNumbers(ranges, c) ==
                   Numbers(if points != [] && c in points[|points| - 1] then Reach(points, c) else 0,
                           Reach(points', c))
              && (points != [] && c in points[|points| - 1] ==> Reach(points, c) <= Reach(points', c))
            else
              && RangeNumbers(ranges, c) == [] && Reach(points', c) == Reach(points, c)
              && (points' == points || (|points'| == |points| + 1 && points'[..|points|] == points && c !in points'[|points|]))
  {
  }

  /**
   * The numbers handed out for a client are 0, 1, 2, ... without a gap or a repetition
   * unless the client comes back after it was dropped from a batch point.
   */
  lemma {:induction false} TilesUnlessBack(nbps: seq<BatchPoint>, c: Client)
    requires !ComesBack(Pointed(nbps).0, c)
    ensures AllNumbers(Pointed(nbps).1, c) == Numbers(0, Reach(Pointed(nbps).0, c))
    decreases |nbps|
  {
    if nbps != [] {
      var n := |nbps| - 1;
      var (points, batches) := Pointed(nbps[..n]);
      var (points', done, ranges) := Tried(points, nbps[n]);
      StepNumbers(points, nbps[n], c);
      assert points <= points';
      assert !ComesBack(points, c);
      TilesUnlessBack(nbps[..n], c);
      assert (batches + [ranges])[..|batches|] == batches;
      if done && c in nbps[n] {
        if points != [] && c in points[|points| - 1] {
          NumbersJoin(0, Reach(points, c), Reach(points', c));
        } else {
          NeverThere(points, points', c);
        }
      }
    }
  }

  lemma NeverThere(points: seq<BatchPoint>, points': seq<BatchPoint>, c: Client)
    requires |points'| == |points| + 1 && points'[..|points|] == points && c in points'[|points|]
    requires points != [] ==> c !in points[|points| - 1]
    requires !ComesBack(points', c)
    ensures Reach(points, c) == 0
  {
    forall i: nat | i < |points|
      ensures c !in points[i]
    {
      assert points'[..|points|][i] == points[i] && points'[..|points|][|points| - 1] == points[|points| - 1];
    }
    ReachZero(points, c);
  }

  predicate Repeats(s: seq<nat>) {
    exists a: nat, b: nat :: a < b < |s| && s[a] == s[b]
  }

  lemma NumbersDoNotRepeat(h: nat)
    ensures !Repeats(Numbers(0, h))
  {
    NumbersAt(0, h);
  }

  /** The batch point where a client that was gone shows up again. */
  lemma BackNow(points: seq<BatchPoint>, points': seq<BatchPoint>, c: Client)
    requires points <= points' && |points'| <= |points| + 1
    requires ComesBack(points', c) && !ComesBack(points, c)
    ensures |points'| == |points| + 1 && c in points'[|points|]
    ensures points != [] && c !in points[|points| - 1] && Reach(points, c) > 0
  {
    var i: nat, j: nat, k: nat :| i < j < k < |points'| && c in points'[i] && c !in points'[j] && c in points'[k];
    assert forall x: nat :: x < |points| ==> points'[x] == points[x];
    if k < |points| {
      assert false;
    }
    assert c in points[i] && c !in points[j];
    if c in points[|points| - 1] {
      assert false;
    }
    ReachZero(points, c);
  }

  lemma {:induction false} BackRepeats(nbps: seq<BatchPoint>, c: Client)
    requires ComesBack(Pointed(nbps).0, c)
    ensures Repeats(AllNumbers(Pointed(nbps).1, c))
    decreases |nbps|
  {
    var n := |nbps| - 1;
    var (points, batches) := Pointed(nbps[..n]);
    var (points', done, ranges) := Tried(points, nbps[n]);
    StepNumbers(points, nbps[n], c);
    assert (batches + [ranges])[..|batches|] == batches;
    var before, added := AllNumbers(batches, c), RangeNumbers(ranges, c);
    if ComesBack(points, c) {
      BackRepeats(nbps[..n], c);
      var a: nat, b: nat :| a < b < |before| && before[a] == before[b];
      assert (before + added)[a] == (before + added)[b];
    } else {
      BackNow(points, points', c);
      TilesUnlessBack(nbps[..n], c);
      NumbersAt(0, Reach(points, c));
      NumbersAt(0, Reach(points', c));
      assert (before + added)[0] == 0 && (before + added)[|before|] == added[0] == 0;
    }
  }

  /**
   * Whatever the intersections: the numbers handed out for a client are 0, 1, 2, ... in order
   * if and only if the client is never dropped from a batch point and then back in a later
   * one; otherwise some number is handed out twice.
   */
  lemma TilesIff(nbps: seq<BatchPoint>, c: Client)
    ensures var numbers := AllNumbers(Pointed(nbps).1, c);
            && (ComesBack(Pointed(nbps).0, c) <==> Repeats(numbers))
            && (ComesBack(Pointed(nbps).0, c) <==> forall h :: numbers != Numbers(0, h))
  {
    if ComesBack(Pointed(nbps).0, c) {
      BackRepeats(nbps, c);
      forall h: nat
        ensures AllNumbers(Pointed(nbps).1, c) != Numbers(0, h)
      {
        NumbersDoNotRepeat(h);
      }
    } else {
      TilesUnlessBack(nbps, c);
      NumbersDoNotRepeat(Reach(Pointed(nbps).0, c));
    }
  }

  function LastOf(points: seq<BatchPoint>): BatchPoint {
    if points == [] then map[] else points[|points| - 1]
  }

  lemma NumbersMember(lo: nat, hi: nat, x: nat)
    ensures x in Numbers(lo, hi) <==> lo <= x < hi
  {
    NumbersAt(lo, hi);
    if lo <= x < hi {
      assert Numbers(lo, hi)[x - lo] == x;
    }
  }

  /** Afterwards the last point covers the intersection, and what is handed out is exactly what it lacked. */
  lemma TriedCovers(points: seq<BatchPoint>, nbp: BatchPoint, c: Client, x: nat)
    ensures var (points', _, ranges) := Tried(points, nbp);
            var last, last' := LastOf(points), LastOf(points');
            && (c in nbp ==> c in last' && last'[c] == if c in last && nbp[c] <= last[c] then last[c] else nbp[c])
            && (c !in nbp && c in last' ==> c in last && last'[c] == last[c])
            && (x in RangeNumbers(ranges, c) <==> c in nbp && x <= nbp[c] && (c in last ==> last[c] < x))
  {
    var ranges := Tried(points, nbp).2;
    if c in ranges {
      NumbersMember(ranges[c].start, ranges[c].stop + 1, x);
    }
  }

  /** Some intersection has the client with at least this number. */
  ghost predicate Known(nbps: seq<BatchPoint>, c: Client, x: nat) {
    exists k: nat :: k < |nbps| && c in nbps[k] && x <= nbps[k][c]
  }

  lemma KnownNext(nbps: seq<BatchPoint>, c: Client, x: nat)
    requires nbps != []
    ensures var n := |nbps| - 1;
            Known(nbps, c, x) <==> Known(nbps[..n], c, x) || (c in nbps[n] && x <= nbps[n][c])
  {
    var n := |nbps| - 1;
    if k: nat :| k < n && c in nbps[..n][k] && x <= nbps[..n][k][c] {
      assert c in nbps[k] && x <= nbps[k][c];
    }
    if k: nat :| k < |nbps| && c in nbps[k] && x <= nbps[k][c] {
      assert k < n ==> nbps[..n][k] == nbps[k];
    }
  }

  /**
   * Nothing that a quorum has is skipped and nothing else is handed out: whatever the
   * intersections, the numbers handed out for a client are exactly those up to the
   * highest that some intersection has for it.
   */
  lemma {:induction false} HandedOutExactly(nbps: seq<BatchPoint>, c: Client, x: nat)
    ensures x in AllNumbers(Pointed(nbps).1, c) <==> Known(nbps, c, x)
    ensures c in LastOf(Pointed(nbps).0) && x <= LastOf(Pointed(nbps).0)[c] ==> Known(nbps, c, x)
    decreases |nbps|
  {
    if nbps != [] {
      var n := |nbps| - 1;
      var (points, batches) := Pointed(nbps[..n]);
      HandedOutExactly(nbps[..n], c, x);
      TriedCovers(points, nbps[n], c, x);
      AllNumbersNext(batches, Tried(points, nbps[n]).2, c);
      KnownNext(nbps, c, x);
    }
  }

  lemma PointedNext(nbps: seq<BatchPoint>, nbp: BatchPoint)
    ensures var (points, batches) := Pointed(nbps);
            Pointed(nbps + [nbp]) == (Tried(points, nbp).0, batches + [Tried(points, nbp).2])
  {
    assert (nbps + [nbp])[..|nbps|] == nbps;
  }

  lemma AllNumbersNext(batches: seq<RangeMap>, ranges: RangeMap, c: Client)
    ensures AllNumbers(batches + [ranges], c) == AllNumbers(batches, c) + RangeNumbers(ranges, c)
  {
    assert (batches + [ranges])[..|batches|] == batches;
  }

  /** Three intersections, the second without client c while client d moves on. */
  function WithGap(c: Client, d: Client, x: Seq, y: Seq): seq<BatchPoint> {
    [map[c := x, d := x], map[d := y], map[c := y, d := y]]
  }

  lemma GapSteps(c: Client, d: Client, x: Seq, y: Seq)
    requires c != d && x < y
    ensures var s := WithGap(c, d, x, y);
            && s[0] != map[]
            && Advances(s[0], s[1]) && Raised(s[0], s[1]) == s[1]
            && Advances(s[1], s[2]) && Raised(s[1], s[2]) == s[2]
  {
    var s := WithGap(c, d, x, y);
    assert c in s[0] && d in s[1] && c in s[2];
  }

  lemma GapRanges(c: Client, d: Client, x: Seq, y: Seq)
    requires c != d && x < y
    ensures var s := WithGap(c, d, x, y);
            Pointed(s).1 == [RangesUpTo(s[0])] + [RangesBetween(s[0], s[1])] + [RangesBetween(s[1], s[2])]
  {
    var s := WithGap(c, d, x, y);
    GapSteps(c, d, x, y);
    PointedThrice(s[0], s[1], s[2]);
    assert s == [s[0], s[1], s[2]];
  }

  lemma PointedTwice(p0: BatchPoint, p1: BatchPoint)
    requires p0 != map[] && Advances(p0, p1) && Raised(p0, p1) == p1
    ensures Pointed([p0, p1]) == ([p0, p1], [RangesUpTo(p0)] + [RangesBetween(p0, p1)])
  {
    PointedNext([], p0);
    PointedNext([p0], p1);
    assert [] + [p0] == [p0] && [p0] + [p1] == [p0, p1];
    assert [] + [RangesUpTo(p0)] == [RangesUpTo(p0)];
  }

  lemma PointedThrice(p0: BatchPoint, p1: BatchPoint, p2: BatchPoint)
    requires p0 != map[]
    requires Advances(p0, p1) && Raised(p0, p1) == p1
    requires Advances(p1, p2) && Raised(p1, p2) == p2
    ensures Pointed([p0, p1, p2]).1 == [RangesUpTo(p0)] + [RangesBetween(p0, p1)] + [RangesBetween(p1, p2)]
  {
    PointedTwice(p0, p1);
    PointedNext([p0, p1], p2);
    assert [p0, p1] + [p2] == [p0, p1, p2];
  }

  /** The client that was dropped and comes back has its first requests run twice. */
  lemma DroppedClientRunsTwice(c: Client, d: Client, x: Seq, y: Seq)
    requires c != d && x < y
    ensures AllNumbers(Pointed(WithGap(c, d, x, y)).1, c) == Numbers(0, x + 1) + Numbers(0, y + 1)
  {
    var s := WithGap(c, d, x, y);
    var r0, r1, r2 := RangesUpTo(s[0]), RangesBetween(s[0], s[1]), RangesBetween(s[1], s[2]);
    GapRanges(c, d, x, y);
    assert [] + [r0] == [r0];
    AllNumbersNext([], r0, c);
    AllNumbersNext([r0], r1, c);
    AllNumbersNext([r0] + [r1], r2, c);
  }
}
