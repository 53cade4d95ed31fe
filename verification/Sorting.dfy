/** The order of a query result by primary key: the elements of a set of ids in increasing order. */
module Sorting {
  import opened Words

  lemma {:induction false} MinExists(s: set<int>)
    requires s != {}
    ensures exists m :: m in s && forall x :: x in s ==> m <= x
  {
    var x := Member(s);
    if y :| y in s && y != x {
      assert y in s - {x};
      MinExists(s - {x});
      var m :| m in s - {x} && forall y :: y in s - {x} ==> m <= y;
      var least := if x < m then x else m;
      assert forall y :: y in s ==> y == x || y in s - {x};
      assert least in s && forall y :: y in s ==> least <= y;
    }
  }

  function Min(s: set<int>): (m: int)
    requires s != {}
    ensures m in s && forall x :: x in s ==> m <= x
  {
    MinExists(s);
    var m :| m in s && forall x :: x in s ==> m <= x;
    m
  }

  function Sorted(s: set<int>): seq<int>
    decreases s
  {
    if s == {} then [] else [Min(s)] + Sorted(s - {Min(s)})
  }

  ghost predicate Increasing(q: seq<int>) {
    forall i, j :: 0 <= i < j < |q| ==> q[i] < q[j]
  }

  lemma {:induction false} SortedIsSorted(s: set<int>)
    ensures Increasing(Sorted(s))
    ensures forall x :: x in Sorted(s) <==> x in s
    ensures forall i :: 0 <= i < |Sorted(s)| ==> Sorted(s)[i] in s
    decreases s
  {
    if s != {} {
      SortedIsSorted(s - {Min(s)});
      var rest := Sorted(s - {Min(s)});
      forall j | 0 <= j < |rest|
        ensures Min(s) < rest[j]
      {
        assert rest[j] in s - {Min(s)};
      }
    }
  }

  /** An increasing list is determined by its elements. */
  lemma {:induction false} IncreasingUnique(p: seq<int>, q: seq<int>)
    requires Increasing(p) && Increasing(q)
    requires forall x :: x in p <==> x in q
    ensures p == q
  {
    if p == [] {
      assert forall i :: 0 <= i < |q| ==> q[i] in q;
      assert |q| == 0;
    } else {
      assert p[0] in p && p[0] in q;
      assert q != [] && q[0] in p;
      assert p[0] == q[0];
      forall x
        ensures x in p[1..] <==> x in q[1..]
      {
        assert x in p <==> x == p[0] || x in p[1..];
        assert x in q <==> x == q[0] || x in q[1..];
      }
      IncreasingUnique(p[1..], q[1..]);
      assert p == [p[0]] + p[1..] && q == [q[0]] + q[1..];
    }
  }

  lemma SortedOfIncreasing(s: set<int>, q: seq<int>)
    requires Increasing(q) && forall x :: x in q <==> x in s
    ensures Sorted(s) == q
  {
    SortedIsSorted(s);
    IncreasingUnique(Sorted(s), q);
  }

  /** Ids drawn later sort behind the ids already there. */
  lemma SortedAppend(s: set<int>, more: seq<int>)
    requires Increasing(more) && forall x, y :: x in s && y in more ==> x < y
    ensures Sorted(s + (set y | y in more)) == Sorted(s) + more
  {
    SortedIsSorted(s);
    var q := Sorted(s) + more;
    forall i, j | 0 <= i < j < |q|
      ensures q[i] < q[j]
    {
      if i < |Sorted(s)| <= j {
        assert q[i] in s && q[j] in more;
      }
    }
    SortedOfIncreasing(s + (set y | y in more), q);
  }
}
