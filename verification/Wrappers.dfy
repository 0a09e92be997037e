/** Small helper datatypes. */
module Wrappers {
  datatype Option<+T> = None | Some(value: T)

  /** A Go call either returns or panics. */
  datatype Outcome<+T> = Panic | Ok(value: T)
}

/** Cardinality facts about finite sets. */
module Sets {
  lemma {:induction false} SubsetSize<T>(a: set<T>, b: set<T>)
    requires a <= b
    ensures |a| <= |b|
  {
    if a != {} {
      var x :| x in a;
      SubsetSize(a - {x}, b - {x});
    }
  }

  /** Two subsets of a set that together outnumber it share an element. */
  lemma Pigeonhole<T>(a: set<T>, b: set<T>, all: set<T>) returns (x: T)
    requires a <= all && b <= all && |a| + |b| > |all|
    ensures x in a && x in b
  {
    if a * b == {} {
      assert |a + b| == |a| + |b|;
      SubsetSize(a + b, all);
      assert false;
    }
    x :| x in a * b;
  }
}
