/** Enumeration of r-combinations in lexicographic order (lr/comb_iterator.go). */
module Combinations {
  import opened Wrappers

  type Indices = seq<int>

  /** a, a+1, ..., a+m-1. */
  function RunFrom(a: int, m: nat): (s: Indices)
    ensures |s| == m && forall k :: 0 <= k < m ==> s[k] == a + k
  {
    seq(m, k requires 0 <= k < m => a + k)
  }

  function Prepend(x: int, ss: seq<Indices>): (r: seq<Indices>)
    ensures |r| == |ss| && forall k :: 0 <= k < |ss| ==> r[k] == [x] + ss[k]
  {
    seq(|ss|, k requires 0 <= k < |ss| => [x] + ss[k])
  }

  /** All increasing r-sequences over lo..n-1, those that start with lo first. */
  function CombosFrom(lo: int, n: int, r: nat): seq<Indices>
    decreases n - lo, r
  {
    if r == 0 then [[]]
    else if lo + r > n then []
    else Prepend(lo, CombosFrom(lo + 1, n, r - 1)) + CombosFrom(lo + 1, n, r)
  }

  function Combos(n: nat, r: nat): seq<Indices> {
    CombosFrom(0, n, r)
  }

  function Binomial(n: nat, r: nat): nat {
    if r == 0 then 1
    else if n == 0 then 0
    else Binomial(n - 1, r - 1) + Binomial(n - 1, r)
  }

  /** The combination after s in lexicographic order, if there is one below n. */
  function Succ(s: Indices, n: int): Option<Indices>
    decreases |s|
  {
    if s == [] then None
    else
      match Succ(s[1..], n)
      case Some(t) => Some([s[0]] + t)
      case None => if s[0] + 1 + |s| <= n then Some(RunFrom(s[0] + 1, |s|)) else None
  }

  ghost predicate Increasing(s: Indices, lo: int, n: int) {
    && (forall k :: 0 <= k < |s| ==> lo <= s[k] < n)
    && (forall j, k :: 0 <= j < k < |s| ==> s[j] < s[k])
  }

  /** s and t agree before position p, where s is smaller. */
  ghost predicate SmallerAt(s: Indices, t: Indices, p: nat) {
    p < |s| && p < |t| && s[p] < t[p] && forall k :: 0 <= k < p ==> s[k] == t[k]
  }

  ghost predicate LexLess(s: Indices, t: Indices) {
    exists p: nat :: SmallerAt(s, t, p)
  }

  // ----- The list of combinations

  lemma {:induction false} BinomialZero(n: nat, r: nat)
    requires r > n
    ensures Binomial(n, r) == 0
  {
    if n > 0 {
      BinomialZero(n - 1, r - 1);
      BinomialZero(n - 1, r);
    }
  }

  /** There are C(n - lo, r) combinations. */
  lemma {:induction false} CombosCount(lo: int, n: int, r: nat)
    requires lo <= n
    ensures |CombosFrom(lo, n, r)| == Binomial(n - lo, r)
    decreases n - lo, r
  {
    if r > 0 {
      if lo + r > n {
        BinomialZero(n - lo, r);
      } else {
        CombosCount(lo + 1, n, r - 1);
        CombosCount(lo + 1, n, r);
      }
    }
  }

  /** If the list is not empty it starts with the run from lo. */
  lemma {:induction false} CombosFirst(lo: int, n: int, r: nat)
    ensures CombosFrom(lo, n, r) != [] <==> r == 0 || lo + r <= n
    ensures CombosFrom(lo, n, r) != [] ==> CombosFrom(lo, n, r)[0] == RunFrom(lo, r)
    decreases r
  {
    if r > 0 && lo + r <= n {
      CombosFirst(lo + 1, n, r - 1);
      assert CombosFrom(lo, n, r)[0] == [lo] + CombosFrom(lo + 1, n, r - 1)[0];
    }
  }

  /** The two halves of the list. */
  lemma CombosAt(lo: int, n: int, r: nat, k: nat)
    requires r > 0 && k < |CombosFrom(lo, n, r)|
    ensures var b, d := CombosFrom(lo + 1, n, r - 1), CombosFrom(lo + 1, n, r);
            && |CombosFrom(lo, n, r)| == |b| + |d|
            && CombosFrom(lo, n, r)[k] == if k < |b| then [lo] + b[k] else d[k - |b|]
  {
  }

  /** The list goes on with t, or stops. */
  predicate FollowedBy(all: seq<Indices>, k: nat, t: Option<Indices>)
    requires k < |all|
  {
    t == if k + 1 < |all| then Some(all[k + 1]) else None
  }

  /** Each entry of the list is followed by its successor. */
  lemma {:induction false} CombosStep(lo: int, n: int, r: nat, k: nat)
    requires k < |CombosFrom(lo, n, r)|
    ensures FollowedBy(CombosFrom(lo, n, r), k, Succ(CombosFrom(lo, n, r)[k], n))
    decreases n - lo, r
  {
    if r > 0 {
      CombosAt(lo, n, r, k);
      var size := |CombosFrom(lo + 1, n, r - 1)|;
      if k < size {
        CombosStep(lo + 1, n, r - 1, k);
        StepFirstHalf(lo, n, r, k);
      } else {
        CombosStep(lo + 1, n, r, k - size);
        StepSecondHalf(lo, n, r, k);
      }
    }
  }

  lemma SuccInFirstHalf(lo: int, n: int, r: nat, k: nat)
    requires r > 0 && k < |CombosFrom(lo + 1, n, r - 1)|
    requires FollowedBy(CombosFrom(lo + 1, n, r - 1), k, Succ(CombosFrom(lo + 1, n, r - 1)[k], n))
    ensures var b, d := CombosFrom(lo + 1, n, r - 1), CombosFrom(lo + 1, n, r);
            Succ([lo] + b[k], n) ==
              if k + 1 < |b| then Some([lo] + b[k + 1]) else if d != [] then Some(d[0]) else None
  {
    CombosSize(lo + 1, n, r - 1, k);
    CombosFirst(lo + 1, n, r);
    SuccPrepend(lo, n, CombosFrom(lo + 1, n, r - 1)[k]);
  }

  lemma StepFirstHalf(lo: int, n: int, r: nat, k: nat)
    requires r > 0 && k < |CombosFrom(lo, n, r)| && k < |CombosFrom(lo + 1, n, r - 1)|
    requires FollowedBy(CombosFrom(lo + 1, n, r - 1), k, Succ(CombosFrom(lo + 1, n, r - 1)[k], n))
    ensures FollowedBy(CombosFrom(lo, n, r), k, Succ(CombosFrom(lo, n, r)[k], n))
  {
    SuccInFirstHalf(lo, n, r, k);
    CombosAt(lo, n, r, k);
    if k + 1 < |CombosFrom(lo, n, r)| {
      CombosAt(lo, n, r, k + 1);
    }
  }

  lemma StepSecondHalf(lo: int, n: int, r: nat, k: nat)
    requires r > 0 && |CombosFrom(lo + 1, n, r - 1)| <= k < |CombosFrom(lo, n, r)|
    requires var j := k - |CombosFrom(lo + 1, n, r - 1)|;
             j < |CombosFrom(lo + 1, n, r)| &&
             FollowedBy(CombosFrom(lo + 1, n, r), j, Succ(CombosFrom(lo + 1, n, r)[j], n))
    ensures FollowedBy(CombosFrom(lo, n, r), k, Succ(CombosFrom(lo, n, r)[k], n))
  {
    CombosAt(lo, n, r, k);
    if k + 1 < |CombosFrom(lo, n, r)| {
      CombosAt(lo, n, r, k + 1);
    }
  }

  lemma SuccPrepend(x: int, n: int, s: Indices)
    ensures Succ([x] + s, n)
         == match Succ(s, n)
            case Some(t) => Some([x] + t)
            case None => if x + 2 + |s| <= n then Some(RunFrom(x + 1, |s| + 1)) else None
  {
    assert ([x] + s)[1..] == s;
  }

  lemma {:induction false} CombosSize(lo: int, n: int, r: nat, k: nat)
    requires k < |CombosFrom(lo, n, r)|
    ensures |CombosFrom(lo, n, r)[k]| == r
    decreases n - lo, r
  {
    if r > 0 {
      var b := CombosFrom(lo + 1, n, r - 1);
      if k < |b| {
        CombosSize(lo + 1, n, r - 1, k);
      } else {
        CombosSize(lo + 1, n, r, k - |b|);
      }
    }
  }

  lemma IncreasingPrepend(lo: int, n: int, s: Indices)
    requires lo < n && Increasing(s, lo + 1, n)
    ensures Increasing([lo] + s, lo, n)
  {
  }

  /** Every entry of the list is an increasing r-sequence over lo..n-1. */
  lemma {:induction false} CombosIncreasing(lo: int, n: int, r: nat, k: nat)
    requires k < |CombosFrom(lo, n, r)|
    ensures |CombosFrom(lo, n, r)[k]| == r && Increasing(CombosFrom(lo, n, r)[k], lo, n)
    decreases n - lo, r
  {
    if r > 0 {
      CombosAt(lo, n, r, k);
      var size := |CombosFrom(lo + 1, n, r - 1)|;
      if k < size {
        CombosIncreasing(lo + 1, n, r - 1, k);
        IncreasingPrepend(lo, n, CombosFrom(lo + 1, n, r - 1)[k]);
      } else {
        CombosIncreasing(lo + 1, n, r, k - size);
      }
    }
  }

  /** Every increasing r-sequence over lo..n-1 is in the list. */
  lemma {:induction false} CombosComplete(lo: int, n: int, s: Indices)
    requires Increasing(s, lo, n)
    ensures s in CombosFrom(lo, n, |s|)
    decreases n - lo, |s|
  {
    if s != [] {
      IncreasingLowerBound(s, lo, n, |s| - 1);
      if s[0] == lo {
        CombosComplete(lo + 1, n, s[1..]);
        InFirstHalf(lo, n, s);
      } else {
        CombosComplete(lo + 1, n, s);
      }
    }
  }

  lemma InFirstHalf(lo: int, n: int, s: Indices)
    requires s != [] && s[0] == lo && lo + |s| <= n && s[1..] in CombosFrom(lo + 1, n, |s| - 1)
    ensures s in CombosFrom(lo, n, |s|)
  {
    var b := CombosFrom(lo + 1, n, |s| - 1);
    var k :| 0 <= k < |b| && b[k] == s[1..];
    assert Prepend(lo, b)[k] == s;
  }

  lemma {:induction false} IncreasingLowerBound(s: Indices, lo: int, n: int, k: nat)
    requires Increasing(s, lo, n) && k < |s|
    ensures s[k] >= lo + k
  {
    if k > 0 {
      IncreasingLowerBound(s, lo, n, k - 1);
    }
  }

  lemma {:induction false} SuccGreater(s: Indices, n: int)
    requires Succ(s, n).Some?
    ensures LexLess(s, Succ(s, n).value)
  {
    if Succ(s[1..], n).Some? {
      SuccGreater(s[1..], n);
      var p: nat :| SmallerAt(s[1..], Succ(s[1..], n).value, p);
      assert forall k :: 0 < k <= p ==> s[k] == s[1..][k - 1];
      assert SmallerAt(s, Succ(s, n).value, p + 1);
    } else {
      assert SmallerAt(s, Succ(s, n).value, 0);
    }
  }

  lemma LexTransitive(s: Indices, t: Indices, u: Indices)
    requires LexLess(s, t) && LexLess(t, u)
    ensures LexLess(s, u)
  {
    var p: nat :| SmallerAt(s, t, p);
    var q: nat :| SmallerAt(t, u, q);
    assert SmallerAt(s, u, if p < q then p else q);
  }

  ghost predicate Rises(all: seq<Indices>, k: nat)
    requires k < |all|
  {
    k + 1 < |all| ==> LexLess(all[k], all[k + 1])
  }

  lemma {:induction false} RisesThroughout(all: seq<Indices>, j: nat, k: nat)
    requires j < k < |all| && forall i: nat :: i < |all| ==> Rises(all, i)
    ensures LexLess(all[j], all[k])
    decreases k
  {
    assert Rises(all, k - 1);
    if j < k - 1 {
      RisesThroughout(all, j, k - 1);
      LexTransitive(all[j], all[k - 1], all[k]);
    }
  }

  lemma CombosRise(lo: int, n: int, r: nat, k: nat)
    requires k < |CombosFrom(lo, n, r)|
    ensures Rises(CombosFrom(lo, n, r), k)
  {
    CombosStep(lo, n, r, k);
    if k + 1 < |CombosFrom(lo, n, r)| {
      SuccGreater(CombosFrom(lo, n, r)[k], n);
    }
  }

  /** The list is in strictly increasing lexicographic order, so nothing is repeated. */
  lemma CombosSorted(lo: int, n: int, r: nat, j: nat, k: nat)
    requires j < k < |CombosFrom(lo, n, r)|
    ensures LexLess(CombosFrom(lo, n, r)[j], CombosFrom(lo, n, r)[k])
  {
    var all := CombosFrom(lo, n, r);
    forall i: nat | i < |all|
      ensures Rises(all, i)
    {
      CombosRise(lo, n, r, i);
    }
    RisesThroughout(all, j, k);
  }

  // ----- The successor in place

  /** Position j cannot be raised: the rest of the combination would not fit below n. */
  predicate Maxed(s: Indices, n: int, j: nat)
    requires j < |s|
  {
    s[j] + 1 + (|s| - j) > n
  }

  lemma {:induction false} SuccAllMaxed(s: Indices, n: int)
    requires forall j: nat :: j < |s| ==> Maxed(s, n, j)
    ensures Succ(s, n) == None
  {
    if s != [] {
      assert Maxed(s, n, 0);
      forall j: nat | j < |s| - 1
        ensures Maxed(s[1..], n, j)
      {
        assert Maxed(s, n, j + 1);
      }
      SuccAllMaxed(s[1..], n);
    }
  }

  /** The successor raises the last position that can be raised and restarts the run after it. */
  lemma {:induction false} SuccAt(s: Indices, n: int, p: nat)
    requires p < |s| && !Maxed(s, n, p)
    requires forall j: nat :: p < j < |s| ==> Maxed(s, n, j)
    ensures Succ(s, n) == Some(s[..p] + RunFrom(s[p] + 1, |s| - p))
  {
    forall j: nat | p <= j + 1 && j < |s| - 1
      ensures Maxed(s[1..], n, j) == Maxed(s, n, j + 1)
    {
    }
    if p == 0 {
      forall j: nat | j < |s| - 1
        ensures Maxed(s[1..], n, j)
      {
        assert Maxed(s, n, j + 1);
      }
      SuccAllMaxed(s[1..], n);
      assert s[..0] + RunFrom(s[0] + 1, |s|) == RunFrom(s[0] + 1, |s|);
    } else {
      SuccAt(s[1..], n, p - 1);
      var run := RunFrom(s[p] + 1, |s| - p);
      assert [s[0]] + (s[1..][..p - 1] + run) == s[..p] + run;
    }
  }

  class CombinationIterator {
    const n: nat
    const r: nat
    const c: nat
    const s: array<int>
    var i: nat

    /** s holds the i-th combination as long as there is one. */
    ghost predicate Valid()
      reads this, s
    {
      && s.Length == r && c == |Combos(n, r)| && i <= c
      && (i < c ==> s[..] == Combos(n, r)[i])
    }

    constructor (n: nat, r: nat)
      ensures this.n == n && this.r == r && c == Binomial(n, r)
      ensures fresh(s) && i == 0 && Valid()
    {
      this.n, this.r := n, r;
      s := new int[r];
      c := Binomial(n, r);
      i := 0;
      new;
      var j := 0;
      while j < r
        invariant 0 <= j <= r && i == 0
        invariant forall k :: 0 <= k < j ==> s[k] == k
      {
        s[j] := j;
        j := j + 1;
      }
      CombosCount(0, n, r);
      if c > 0 {
        CombosFirst(0, n, r);
        assert s[..] == RunFrom(0, r);
      }
    }

    predicate HasNext()
      reads this
    {
      i < c
    }

    method Next()
      requires Valid() && r >= 1
      modifies this`i, s
      ensures Valid()
      ensures i == if old(i) < c then old(i) + 1 else old(i)
    {
      if HasNext() {
        CombosStep(0, n, r, i);
        UpdateS();
      }
    }

    /** Replaces s by its lexicographic successor; past the last combination s is left unspecified. */
    method UpdateS()
      requires s.Length == r && r >= 1
      modifies this`i, s
      ensures i == old(i) + 1
      ensures Succ(old(s[..]), n).Some? ==> s[..] == Succ(old(s[..]), n).value
    {
      i := i + 1;
      ghost var was := s[..];
      var p := r - 1;
      s[p] := s[p] + 1;
      while p > 0 && s[p] >= n - r + 1 + p
        invariant 0 <= p < r && i == old(i) + 1
        invariant s[p] == was[p] + 1
        invariant forall k :: 0 <= k < p ==> s[k] == was[k]
        invariant forall k: nat :: p < k < r ==> Maxed(was, n, k)
      {
        p := p - 1;
        s[p] := s[p] + 1;
      }
      var q := p + 1;
      while q < r
        invariant p < q <= r && i == old(i) + 1
        invariant forall k :: 0 <= k < p ==> s[k] == was[k]
        invariant forall k :: p <= k < q ==> s[k] == was[p] + 1 + (k - p)
      {
        s[q] := s[q - 1] + 1;
        q := q + 1;
      }
      if Maxed(was, n, p) {
        SuccAllMaxed(was, n);
      } else {
        SuccAt(was, n, p);
        assert s[..] == was[..p] + RunFrom(was[p] + 1, r - p);
      }
    }
  }
}
