/** Lack of cohesion of methods: one signed counter over every pair of per-method field
    sets, +1 for a disjoint pair and -1 for an overlapping one, floored at zero. */
module Cohesion {

  /** The counter step for one pair of methods. */
  function Score(a: set<string>, b: set<string>): int {
    if a * b == {} then 1 else -1
  }

  /** Steps of row `i` against columns i+1 .. j-1, in the order of the inner loop. */
  function RowSum(u: seq<set<string>>, i: nat, j: nat): int
    requires i < |u| && j <= |u|
    decreases j
  {
    if j <= i + 1 then 0 else RowSum(u, i, j - 1) + Score(u[i], u[j - 1])
  }

  /** Steps of the complete rows 0 .. i-1, in the order of the outer loop. */
  function RowsSum(u: seq<set<string>>, i: nat): int
    requires i <= |u|
  {
    if i == 0 then 0 else RowsSum(u, i - 1) + RowSum(u, i - 1, |u|)
  }

  /** The counter once both loops are done. */
  function Counter(u: seq<set<string>>): int {
    RowsSum(u, |u|)
  }

  /** The LCOM metric: the counter, or zero when it is negative. */
  function Lcom(u: seq<set<string>>): (r: nat)
    ensures r == 0 || r == Counter(u)
    ensures r >= Counter(u)
  {
    var c := Counter(u);
    if c > 0 then c else 0
  }

  /** Steps of methods 0 .. i-1 against one further method `x`. */
  function Against(u: seq<set<string>>, i: nat, x: set<string>): int
    requires i <= |u|
  {
    if i == 0 then 0 else Against(u, i - 1, x) + Score(u[i - 1], x)
  }

  /** A row over columns that all precede a new method does not see it. */
  lemma {:induction false} RowSumPrefix(u: seq<set<string>>, x: set<string>, i: nat, j: nat)
    requires i < |u| && j <= |u|
    ensures RowSum(u + [x], i, j) == RowSum(u, i, j)
    decreases j
  {
    if j > i + 1 {
      RowSumPrefix(u, x, i, j - 1);
      assert (u + [x])[i] == u[i] && (u + [x])[j - 1] == u[j - 1];
    }
  }

  lemma {:induction false} RowsSumAppend(u: seq<set<string>>, x: set<string>, i: nat)
    requires i <= |u|
    ensures RowsSum(u + [x], i) == RowsSum(u, i) + Against(u, i, x)
  {
    if i > 0 {
      RowsSumAppend(u, x, i - 1);
      var v := u + [x];
      RowSumPrefix(u, x, i - 1, |u|);
      assert v[i - 1] == u[i - 1] && v[|u|] == x;
      assert RowSum(v, i - 1, |v|) == RowSum(v, i - 1, |u|) + Score(u[i - 1], x);
    }
  }

  /** The counter is the sum, over every method, of its steps against all earlier methods:
      appending a method adds exactly its steps against the methods before it. */
  lemma CounterAppend(u: seq<set<string>>, x: set<string>)
    ensures Counter(u + [x]) == Counter(u) + Against(u, |u|, x)
  {
    var v := u + [x];
    RowsSumAppend(u, x, |u|);
    assert RowSum(v, |u|, |v|) == 0;
  }

  /** Number of methods among 0 .. i-1 whose field sets are disjoint from `x`. */
  function DisjointFrom(u: seq<set<string>>, i: nat, x: set<string>): (n: nat)
    requires i <= |u|
    ensures n <= i
  {
    if i == 0 then 0 else DisjointFrom(u, i - 1, x) + (if u[i - 1] * x == {} then 1 else 0)
  }

  /** Number of methods among 0 .. i-1 whose field sets overlap `x`. */
  function OverlapWith(u: seq<set<string>>, i: nat, x: set<string>): (n: nat)
    requires i <= |u|
    ensures n <= i
  {
    if i == 0 then 0 else OverlapWith(u, i - 1, x) + (if u[i - 1] * x == {} then 0 else 1)
  }

  /** Number of unordered pairs of methods with disjoint field sets. */
  function DisjointPairs(u: seq<set<string>>): nat {
    if |u| == 0 then 0
    else DisjointPairs(u[..|u| - 1]) + DisjointFrom(u[..|u| - 1], |u| - 1, u[|u| - 1])
  }

  /** Number of unordered pairs of methods whose field sets overlap. */
  function OverlappingPairs(u: seq<set<string>>): nat {
    if |u| == 0 then 0
    else OverlappingPairs(u[..|u| - 1]) + OverlapWith(u[..|u| - 1], |u| - 1, u[|u| - 1])
  }

  lemma {:induction false} AgainstSplits(u: seq<set<string>>, i: nat, x: set<string>)
    requires i <= |u|
    ensures Against(u, i, x) == DisjointFrom(u, i, x) - OverlapWith(u, i, x)
    ensures DisjointFrom(u, i, x) + OverlapWith(u, i, x) == i
  {
    if i > 0 {
      AgainstSplits(u, i - 1, x);
    }
  }

  /** The counter equals the number of disjoint pairs minus the number of overlapping
      pairs, and the two numbers together count every pair once. */
  lemma {:induction false} CounterCountsPairs(u: seq<set<string>>)
    ensures Counter(u) == DisjointPairs(u) - OverlappingPairs(u)
    ensures 2 * (DisjointPairs(u) + OverlappingPairs(u)) == |u| * (|u| - 1)
  {
    if |u| > 0 {
      var p, x := u[..|u| - 1], u[|u| - 1];
      assert u == p + [x];
      CounterCountsPairs(p);
      CounterAppend(p, x);
      AgainstSplits(p, |p|, x);
      assert |u| * (|u| - 1) == |p| * (|p| - 1) + 2 * |p|;
    }
  }

  /** Methods whose field sets are pairwise disjoint make every pair count: m methods give
      LCOM = m(m-1)/2. */
  lemma PairwiseDisjointLcom(u: seq<set<string>>)
    requires forall i, j :: 0 <= i < j < |u| ==> u[i] * u[j] == {}
    ensures 2 * Lcom(u) == |u| * (|u| - 1)
  {
    AllDisjointPairs(u);
    CounterCountsPairs(u);
  }

  lemma {:induction false} AllDisjointPairs(u: seq<set<string>>)
    requires forall i, j :: 0 <= i < j < |u| ==> u[i] * u[j] == {}
    ensures OverlappingPairs(u) == 0
  {
    if |u| > 0 {
      var p, x := u[..|u| - 1], u[|u| - 1];
      AllDisjointPairs(p);
      NoneOverlap(p, |p|, x);
    }
  }

  lemma {:induction false} NoneOverlap(p: seq<set<string>>, i: nat, x: set<string>)
    requires i <= |p|
    requires forall k :: 0 <= k < i ==> p[k] * x == {}
    ensures OverlapWith(p, i, x) == 0
  {
    if i > 0 {
      NoneOverlap(p, i - 1, x);
    }
  }

  /** Methods that all use the same non-empty field set make every pair overlap: the
      counter is -m(m-1)/2 and LCOM is 0. */
  lemma IdenticalFieldSetsLcom(u: seq<set<string>>)
    requires forall i :: 0 <= i < |u| ==> u[i] == u[0] && u[i] != {}
    ensures 2 * Counter(u) == -(|u| * (|u| - 1))
    ensures Lcom(u) == 0
  {
    AllOverlappingPairs(u);
    CounterCountsPairs(u);
  }

  lemma {:induction false} AllOverlappingPairs(u: seq<set<string>>)
    requires forall i :: 0 <= i < |u| ==> u[i] == u[0] && u[i] != {}
    ensures DisjointPairs(u) == 0
  {
    if |u| > 0 {
      var p, x := u[..|u| - 1], u[|u| - 1];
      assert forall k :: 0 <= k < |p| ==> p[k] == u[k];
      AllOverlappingPairs(p);
      AllOverlap(p, |p|, x);
    }
  }

  lemma {:induction false} AllOverlap(p: seq<set<string>>, i: nat, x: set<string>)
    requires i <= |p|
    requires x != {}
    requires forall k :: 0 <= k < i ==> p[k] == x
    ensures DisjointFrom(p, i, x) == 0
  {
    if i > 0 {
      AllOverlap(p, i - 1, x);
      assert p[i - 1] * x == x;
    }
  }

  /** With fewer than two methods there is no pair and LCOM is 0; it never exceeds the
      number of pairs. */
  lemma LcomBounds(u: seq<set<string>>)
    ensures 2 * Lcom(u) <= |u| * (|u| - 1)
    ensures |u| <= 1 ==> Lcom(u) == 0
  {
    CounterCountsPairs(u);
  }
}
