/** Epochs for replacing replicas (lr/epochgen.go; ringreplacer/epochgen.go holds the same code). */
module Epochs {
  import opened Group

  const TWO_TO_64 := 0x1_0000_0000_0000_0000

  /** 0 + 1 + ... + s. */
  function Triangle(s: nat): nat {
    if s == 0 then 0 else Triangle(s - 1) + s
  }

  /** Cantor's pairing: pairs are numbered along the diagonals k1 + k2 = s. */
  function Cantor(k1: nat, k2: nat): nat {
    Triangle(k1 + k2) + k2
  }

  /** The formula of the source, on unbounded integers. */
  function CantorPairing(k1: nat, k2: nat): nat {
    (k1 + k2) * (k1 + k2 + 1) / 2 + k2
  }

  /** The same formula in 64-bit arithmetic, where every operation wraps around. */
  function CantorPairing64(k1: nat, k2: nat): nat {
    var s := (k1 + k2) % TWO_TO_64;
    var t := (k1 + k2 + 1) % TWO_TO_64;
    (s * t % TWO_TO_64 / 2 + k2) % TWO_TO_64
  }

  lemma {:induction false} TriangleFormula(s: nat)
    ensures s * (s + 1) == 2 * Triangle(s)
  {
    if s > 0 {
      TriangleFormula(s - 1);
      assert s * (s + 1) == (s - 1) * s + 2 * s;
    }
  }

  lemma PairingIsCantor(k1: nat, k2: nat)
    ensures CantorPairing(k1, k2) == Cantor(k1, k2)
  {
    TriangleFormula(k1 + k2);
  }

  lemma {:induction false} TriangleMonotone(s: nat, t: nat)
    requires s <= t
    ensures Triangle(s) + (t - s) <= Triangle(t)
    decreases t
  {
    if s < t {
      TriangleMonotone(s, t - 1);
    }
  }

  /** A diagonal ends below the start of every later one. */
  lemma DiagonalsOrdered(a: nat, b: nat, c: nat, d: nat)
    requires a + b < c + d
    ensures Cantor(a, b) < Cantor(c, d)
  {
    TriangleMonotone(a + b + 1, c + d);
  }

  /** Cantor's pairing gives different numbers to different pairs. */
  lemma CantorInjective(a: nat, b: nat, c: nat, d: nat)
    requires Cantor(a, b) == Cantor(c, d)
    ensures a == c && b == d
  {
    if a + b < c + d {
      DiagonalsOrdered(a, b, c, d);
    } else if c + d < a + b {
      DiagonalsOrdered(c, d, a, b);
    }
  }

  lemma CantorGrows(k: nat, n: nat, m: nat)
    requires n < m
    ensures Cantor(k, n) < Cantor(k, m) && m <= Cantor(k, m)
  {
    DiagonalsOrdered(k, n, k, m);
    TriangleMonotone(0, k + m);
  }

  /** The 64-bit result is the exact one if and only if the product does not overflow. */
  lemma Pairing64ExactIff(k1: nat, k2: nat)
    requires k1 < TWO_TO_64 && k2 < TWO_TO_64
    ensures CantorPairing64(k1, k2) == Cantor(k1, k2) <==> (k1 + k2) * (k1 + k2 + 1) < TWO_TO_64
  {
    var s := k1 + k2;
    var product := s * (s + 1);
    var wrapped := s % TWO_TO_64 * ((s + 1) % TWO_TO_64) % TWO_TO_64;
    PairingIsCantor(k1, k2);
    ProductOverflows(s);
    if product < TWO_TO_64 {
      SmallIsUnchanged(s);
      SmallIsUnchanged(s + 1);
      SmallIsUnchanged(product);
      SmallIsUnchanged(product / 2 + k2);
    } else {
      WrapIsLower(wrapped, k2, product);
    }
  }

  lemma SmallIsUnchanged(x: nat)
    ensures x < TWO_TO_64 ==> x % TWO_TO_64 == x
  {
  }

  lemma WrapIsLower(wrapped: nat, k2: nat, product: nat)
    requires wrapped < TWO_TO_64 <= product
    ensures (wrapped / 2 + k2) % TWO_TO_64 < product / 2 + k2
  {
    assert wrapped / 2 + k2 < product / 2 + k2;
  }

  lemma ProductOverflows(s: nat)
    ensures s >= 0x1_0000_0000 ==> s * (s + 1) >= TWO_TO_64
  {
    if s >= 0x1_0000_0000 {
      assert s * (s + 1) >= 0x1_0000_0000 * (s + 1) >= 0x1_0000_0000 * 0x1_0000_0001;
    }
  }

  /** No intermediate result of the pairing overflows. */
  predicate Fits(k1: nat, k2: nat) {
    (k1 + k2) * (k1 + k2 + 1) < TWO_TO_64
  }

  lemma FitsBelow(k1: nat, k2: nat)
    requires Fits(k1, k2)
    ensures k1 + k2 < 0x1_0000_0000
  {
    ProductOverflows(k1 + k2);
  }

  lemma FitsEarlier(k1: nat, k2: nat, k3: nat)
    requires Fits(k1, k3) && k2 <= k3
    ensures Fits(k1, k2)
  {
    var s, t := k1 + k2, k1 + k3;
    assert s * (s + 1) <= t * (s + 1) <= t * (t + 1);
  }

  // ----- The identities of replicas

  /** On unbounded integers generators of replicas that differ never give a common epoch. */
  lemma GeneratorsDisjoint(a: ID, b: ID, k: nat, m: nat)
    requires a.paxosID >= 0 && b.paxosID >= 0 && a != b
    ensures Cantor(Cantor(a.paxosID, a.epoch), k) != Cantor(Cantor(b.paxosID, b.epoch), m)
  {
    var x, y := Cantor(a.paxosID, a.epoch), Cantor(b.paxosID, b.epoch);
    if Cantor(x, k) == Cantor(y, m) {
      CantorInjective(x, k, y, m);
      CantorInjective(a.paxosID, a.epoch, b.paxosID, b.epoch);
    }
  }

  /** uint64(id.PaxosID): a negative position wraps around. */
  function ToWord(p: PaxosID): nat {
    if p >= 0 then p else p + TWO_TO_64
  }

  function Base(id: ID): nat {
    CantorPairing64(ToWord(id.paxosID), id.epoch)
  }

  /** The epoch that a generator computes from its k-th counter value. */
  function EpochAt(base: nat, k: nat): nat {
    CantorPairing64(base, k % TWO_TO_64)
  }

  /** The base of the identity is computed without overflow; a negative position never is. */
  predicate BaseFits(id: ID) {
    Fits(ToWord(id.paxosID), id.epoch)
  }

  lemma EpochAtExact(base: nat, k: nat)
    requires base < TWO_TO_64 && Fits(base, k)
    ensures EpochAt(base, k) == Cantor(base, k)
  {
    FitsBelow(base, k);
    SmallIsUnchanged(k);
    assert k % TWO_TO_64 == k;
    Pairing64ExactIff(base, k);
  }

  lemma BaseExact(id: ID)
    requires BaseFits(id)
    ensures id.paxosID >= 0 && Base(id) == Cantor(id.paxosID, id.epoch)
  {
    FitsBelow(ToWord(id.paxosID), id.epoch);
    Pairing64ExactIff(ToWord(id.paxosID), id.epoch);
  }

  /**
   * As long as neither the bases nor the epochs overflow, 64-bit generators of different
   * identities never meet.
   */
  lemma GeneratorsDisjoint64(a: ID, b: ID, k: nat, m: nat)
    requires a != b && BaseFits(a) && BaseFits(b) && Fits(Base(a), k) && Fits(Base(b), m)
    ensures EpochAt(Base(a), k) != EpochAt(Base(b), m)
  {
    BaseExact(a);
    BaseExact(b);
    EpochAtExact(Base(a), k);
    EpochAtExact(Base(b), m);
    GeneratorsDisjoint(a, b, k, m);
  }

  /** As long as its epochs do not overflow, the epochs of a generator rise. */
  lemma EpochsRise(base: nat, k: nat, m: nat)
    requires base < TWO_TO_64 && k < m && Fits(base, m)
    ensures EpochAt(base, k) < EpochAt(base, m)
  {
    FitsEarlier(base, k, m);
    EpochAtExact(base, k);
    EpochAtExact(base, m);
    CantorGrows(base, k, m);
  }

  /** Past the overflow two replicas can share a base, and with it all their epochs. */
  lemma ReplicasShareBase()
    ensures var a, b := ID(26, 461260854023512), ID(0, 461260854003542);
            !BaseFits(a) && !BaseFits(b) && Base(a) == Base(b) && forall k: nat :: EpochAt(Base(a), k) == EpochAt(Base(b), k)
  {
    var a, b := ID(26, 461260854023512), ID(0, 461260854003542);
    assert CantorPairing64(26, 461260854023512) == 4258706449823036275;
    assert CantorPairing64(0, 461260854003542) == 4258706449823036275;
  }

  // ----- The generator

  /** The loop of the generator comes to a counter value whose epoch is above the old one. */
  ghost predicate LoopEnds(base: nat, used: nat, oldEpoch: Epoch) {
    exists k: nat :: k >= used && EpochAt(base, k) > oldEpoch
  }

  /** It does when some epoch above the old one can be computed without overflow. */
  lemma LoopEndsIfFits(base: nat, used: nat, oldEpoch: Epoch, k: nat)
    requires base < TWO_TO_64 && used <= k && Fits(base, k) && Cantor(base, k) > oldEpoch
    ensures LoopEnds(base, used, oldEpoch)
  {
    EpochAtExact(base, k);
  }

  /** It does not when the old epoch is the largest there is. */
  lemma LoopNeverEndsAtMaximum(base: nat, used: nat)
    ensures !LoopEnds(base, used, TWO_TO_64 - 1)
  {
  }

  class EpochGenerator {
    const baseForNode: nat
    var n: Epoch                 // the captured uint64 counter
    ghost var used: nat          // how many counter values have been used up
    ghost var issued: seq<nat>   // the counter values whose epochs were returned

    ghost predicate Valid()
      reads this
    {
      && baseForNode < TWO_TO_64 && n == used % TWO_TO_64
      && (forall i: nat :: i < |issued| ==> issued[i] < used)
      && (forall i: nat, j: nat :: i < j < |issued| ==> issued[i] < issued[j])
    }

    /** The i-th epoch returned. */
    ghost function Returned(i: nat): nat
      requires i < |issued|
      reads this
    {
      EpochAt(baseForNode, issued[i])
    }

    constructor (id: ID)
      ensures Valid() && baseForNode == Base(id) && used == 0 && issued == []
    {
      baseForNode := Base(id);
      n, used, issued := 0, 0, [];
    }

    /** If the loop ends, then with the first epoch that is above the old one. */
    method Next(oldEpoch: Epoch) returns (replacerEpoch: Epoch)
      requires Valid() && LoopEnds(baseForNode, used, oldEpoch)
      modifies this
      ensures Valid()
      ensures replacerEpoch > oldEpoch
      ensures old(used) < used && replacerEpoch == EpochAt(baseForNode, used - 1)
      ensures forall k: nat :: old(used) <= k < used - 1 ==> EpochAt(baseForNode, k) <= oldEpoch
      ensures issued == old(issued) + [used - 1]
    {
      ghost var last: nat :| last >= used && EpochAt(baseForNode, last) > oldEpoch;
      replacerEpoch := 0;
      while replacerEpoch <= oldEpoch
        invariant old(used) <= used && n == used % TWO_TO_64 && issued == old(issued)
        invariant used == old(used) ==> replacerEpoch == 0
        invariant used > old(used) ==> replacerEpoch == EpochAt(baseForNode, used - 1)
        invariant forall k: nat :: old(used) <= k < used - 1 ==> EpochAt(baseForNode, k) <= oldEpoch
        invariant replacerEpoch <= oldEpoch ==> used <= last
        decreases last + 1 - used
      {
        replacerEpoch := CantorPairing64(baseForNode, n);
        Count(used);
        n := (n + 1) % TWO_TO_64;
        used := used + 1;
      }
      issued := issued + [used - 1];
    }

    lemma Count(k: nat)
      ensures (k % TWO_TO_64 + 1) % TWO_TO_64 == (k + 1) % TWO_TO_64
    {
    }
  }

  /** One generator never repeats an epoch, as long as the later one does not overflow. */
  lemma NeverRepeats(g: EpochGenerator, i: nat, j: nat)
    requires g.Valid() && i < j < |g.issued| && Fits(g.baseForNode, g.issued[j])
    ensures g.Returned(i) < g.Returned(j)
  {
    EpochsRise(g.baseForNode, g.issued[i], g.issued[j]);
  }

  /** What generators of different identities return differs, as long as nothing overflows. */
  lemma ReturnedDisjoint(g: EpochGenerator, a: ID, i: nat, h: EpochGenerator, b: ID, j: nat)
    requires a != b && BaseFits(a) && BaseFits(b)
    requires g.baseForNode == Base(a) && i < |g.issued| && Fits(g.baseForNode, g.issued[i])
    requires h.baseForNode == Base(b) && j < |h.issued| && Fits(h.baseForNode, h.issued[j])
    ensures g.Returned(i) != h.Returned(j)
  {
    GeneratorsDisjoint64(a, b, g.issued[i], h.issued[j]);
  }
}
