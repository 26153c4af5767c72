/** Counting the integers of an interval that pass a test. */
module Counting {

  ghost function Marked(test: int -> bool, lo: int, hi: int): set<int> {
    set u | lo < u <= hi && test(u)
  }

  lemma MarkedNone(test: int -> bool, lo: int)
    ensures Marked(test, lo, lo) == {}
  {
  }

  lemma MarkedStep(test: int -> bool, lo: int, mid: int, next: int)
    requires lo <= mid < next && test(next)
    requires forall u :: mid < u < next ==> !test(u)
    ensures |Marked(test, lo, next)| == |Marked(test, lo, mid)| + 1
  {
    assert Marked(test, lo, next) == Marked(test, lo, mid) + {next};
  }

  lemma MarkedGrows(test: int -> bool, lo: int, mid: int, next: int)
    requires lo <= mid < next && test(next)
    ensures |Marked(test, lo, next)| > |Marked(test, lo, mid)|
  {
    assert next !in Marked(test, lo, mid);
    SubsetSize(Marked(test, lo, mid) + {next}, Marked(test, lo, next));
  }

  lemma MarkedSplits(test: int -> bool, lo: int, mid: int, hi: int)
    requires lo <= mid <= hi
    ensures |Marked(test, lo, hi)| == |Marked(test, lo, mid)| + |Marked(test, mid, hi)|
  {
    assert Marked(test, lo, hi) == Marked(test, lo, mid) + Marked(test, mid, hi);
    assert Marked(test, lo, mid) !! Marked(test, mid, hi);
  }

  lemma {:induction false} MarkedAll(test: int -> bool, lo: int, n: nat)
    requires forall u :: lo < u <= lo + n ==> test(u)
    ensures |Marked(test, lo, lo + n)| == n
  {
    if n == 0 {
      MarkedNone(test, lo);
    } else {
      MarkedAll(test, lo, n - 1);
      MarkedStep(test, lo, lo + n - 1, lo + n);
    }
  }

  lemma {:induction false} SubsetSize<T>(a: set<T>, b: set<T>)
    requires a <= b
    ensures |a| <= |b|
  {
    if a != {} {
      var x :| x in a;
      SubsetSize(a - {x}, b - {x});
    }
  }

  lemma {:induction false} UnionSize<T>(a: set<T>, b: set<T>)
    ensures |a + b| <= |a| + |b|
  {
  }
}
