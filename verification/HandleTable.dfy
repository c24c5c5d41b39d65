/** The search for a free index in a table keyed by int. */
module HandleTable {

  /** The least index that a table does not use. */
  ghost predicate LeastFree<T>(m: map<int, T>, i: int) {
    i >= 0 && i !in m && forall j :: 0 <= j < i ==> j in m
  }

  function Below(n: nat): (s: set<int>)
    ensures forall k :: k in s <==> 0 <= k < n
  {
    if n == 0 then {} else Below(n - 1) + {n - 1}
  }

  lemma {:induction false} BelowSize(n: nat)
    ensures |Below(n)| == n
  {
    if n > 0 {
      BelowSize(n - 1);
      assert Below(n) == Below(n - 1) + {n - 1};
    }
  }

  lemma SubsetSize<T>(a: set<T>, b: set<T>)
    requires a <= b
    ensures |a| <= |b|
  {
    var rest := b - a;
    assert b == a + rest && |a + rest| == |a| + |rest|;
  }

  /** Only so many indices in a row can be taken. */
  lemma TakenBound<T>(m: map<int, T>, n: nat)
    requires forall j :: 0 <= j < n ==> j in m
    ensures n <= |m|
  {
    BelowSize(n);
    SubsetSize(Below(n), m.Keys);
  }

  lemma LeastFreeUnique<T>(m: map<int, T>, i: int, j: int)
    requires LeastFree(m, i) && LeastFree(m, j)
    ensures i == j && i <= |m|
  {
    TakenBound(m, i);
  }

  /** The same index as a function, searching upward from i. */
  function FreeFrom<T>(m: map<int, T>, i: nat): (r: int)
    requires forall j :: 0 <= j < i ==> j in m
    ensures LeastFree(m, r)
    decreases |m| - i
  {
    if i in m then
      TakenBound(m, i + 1);
      FreeFrom(m, i + 1)
    else i
  }

  method NewMapIndex<T>(m: map<int, T>) returns (i: int)
    ensures LeastFree(m, i) && i <= |m|
  {
    i := 0;
    while i in m
      invariant 0 <= i <= |m| && forall j :: 0 <= j < i ==> j in m
      decreases |m| - i
    {
      TakenBound(m, i + 1);
      i := i + 1;
    }
  }
}
