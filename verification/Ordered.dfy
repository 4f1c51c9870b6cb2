/** Finite sets of numbers read in ascending order: the iteration order of the
    source's B-tree maps and of `ORDER BY` queries. */
module Ordered {

  predicate StrictlyIncreasing(s: seq<int>) {
    forall i, j | 0 <= i < j < |s| :: s[i] < s[j]
  }

  predicate IsLeast(m: int, s: set<int>) {
    m in s && forall x | x in s :: m <= x
  }

  lemma EmptyOrInhabited(s: set<int>)
    ensures s == {} || exists x :: x in s
  {
    if !exists x :: x in s {
      assert s == {};
    }
  }

  lemma {:induction false} Least(s: set<int>) returns (m: int)
    requires s != {}
    ensures IsLeast(m, s)
  {
    EmptyOrInhabited(s);
    var x :| x in s;
    m := x;
    var rest := s - {x};
    assert forall y | y in s :: y == x || y in rest;
    if rest != {} {
      var r := Least(rest);
      if r < m {
        m := r;
      }
    }
  }

  /** The members of `s`, each once, in ascending order. */
  function Ascending(s: set<int>): (r: seq<int>)
    ensures StrictlyIncreasing(r)
    ensures forall x :: x in r <==> x in s
    ensures |r| == |s|
  {
    if s == {} then []
    else
      assert exists m :: IsLeast(m, s) by { var m := Least(s); }
      var m :| IsLeast(m, s);
      var rest := Ascending(s - {m});
      [m] + rest
  }

  lemma {:induction false} IncreasingAsMultiset(r: seq<int>, s: set<int>)
    requires StrictlyIncreasing(r) && forall x :: x in r <==> x in s
    ensures multiset(r) == multiset(s)
  {
    if r == [] {
      assert forall x :: x in s ==> x in r;
      assert s == {};
    } else {
      var n := |r| - 1;
      assert r == r[..n] + [r[n]];
      assert forall x :: x in r[..n] <==> x in s - {r[n]};
      IncreasingAsMultiset(r[..n], s - {r[n]});
      assert multiset(s) == multiset(s - {r[n]}) + multiset{r[n]};
    }
  }

  lemma {:induction false} AscendingKeepsMembers(s: set<int>)
    ensures multiset(Ascending(s)) == multiset(s)
  {
    IncreasingAsMultiset(Ascending(s), s);
  }

  lemma MultisetOfParts(all: set<int>, a: set<int>, b: set<int>)
    requires a <= all && b <= all && a !! b
    ensures multiset(all) == multiset(all - a - b) + multiset(a) + multiset(b)
  {
  }

  /** A member of the whole that is in neither sequence is among the rest. */
  lemma MemberOfTheRest(a: seq<int>, b: seq<int>, rest: set<int>, all: set<int>, x: int)
    requires multiset(a) + multiset(b) + multiset(rest) == multiset(all)
    requires x in all && x !in a && x !in b
    ensures x in rest
  {
    assert multiset(all)[x] == multiset(a)[x] + multiset(b)[x] + multiset(rest)[x];
    assert multiset(a)[x] == 0 && multiset(b)[x] == 0;
  }
}
