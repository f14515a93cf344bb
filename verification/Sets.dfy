/** Sizes of sets. */
module Sets {

  lemma SubsetCount<T>(s: set<T>, t: set<T>)
    requires s <= t
    ensures |s| <= |t|
  {
    assert t == s + (t - s);
  }

  predicate Within(lo: nat, b: nat, hi: nat) {
    lo <= b < hi
  }

  function Interval(lo: nat, hi: nat): set<nat> {
    set b | 0 <= b < hi && Within(lo, b, hi)
  }

  lemma {:induction false} IntervalCount(lo: nat, hi: nat)
    requires lo <= hi
    ensures |Interval(lo, hi)| == hi - lo
    decreases hi
  {
    if lo == hi {
      assert Interval(lo, hi) == {};
    } else {
      IntervalCount(lo, hi - 1);
      assert Interval(lo, hi) == Interval(lo, hi - 1) + {hi - 1};
    }
  }
}
