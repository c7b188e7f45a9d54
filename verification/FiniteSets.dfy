/** Sizes of finite sets. */
module FiniteSets {
  function Range(j: nat): (r: set<nat>)
    ensures |r| == j && forall i: nat :: i in r <==> i < j
  {
    if j == 0 then {} else Range(j - 1) + {j - 1}
  }

  lemma {:induction false} SubsetSize<T>(a: set<T>, b: set<T>)
    requires a <= b
    ensures |a| <= |b|
  {
    if a != {} {
      var x :| x in a;
      SubsetSize(a - {x}, b - {x});
    }
  }
}
