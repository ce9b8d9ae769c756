/** Counting in finite sets. */
module Sets {

  function Below(bound: nat): (s: set<nat>)
    ensures forall i: nat :: i in s <==> i < bound
  {
    if bound == 0 then {} else Below(bound - 1) + {bound - 1}
  }

  lemma {:induction false} BelowCount(bound: nat)
    ensures |Below(bound)| == bound
  {
    if bound > 0 {
      BelowCount(bound - 1);
    }
  }

  lemma {:induction false} SubsetSize<T>(a: set<T>, b: set<T>)
    requires a <= b
    ensures |a| <= |b|
  {
    assert b == a + (b - a);
  }

  lemma TwoElements<T>(a: set<T>, x: T, y: T)
    requires x in a && y in a && x != y
    ensures |a| >= 2
  {
    SubsetSize({x, y}, a);
  }
}
