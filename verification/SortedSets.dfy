/** The elements of a finite set in increasing order. */
module SortedSets {

  /** -1 for the empty set. */
  function Highest(s: set<nat>): (h: int)
    ensures forall x :: x in s ==> x <= h
    ensures if s == {} then h == -1 else h in s
  {
    if s == {} then -1
    else
      HighestExists(s);
      var x :| x in s && forall y :: y in s ==> y <= x;
      x
  }

  lemma {:induction false} HighestExists(s: set<nat>)
    requires s != {}
    ensures exists x :: x in s && forall y :: y in s ==> y <= x
  {
    var x :| x in s;
    if s != {x} {
      HighestExists(s - {x});
      var y :| y in s - {x} && forall z :: z in s - {x} ==> z <= y;
      var top := if x > y then x else y;
      assert top in s && forall z :: z in s ==> z <= top by {
        assert forall z :: z in s ==> z == x || z in s - {x};
      }
    }
  }

  function Sorted(s: set<nat>): seq<nat>
  {
    if s == {} then []
    else
      var top: nat := Highest(s);
      Sorted(s - {top}) + [top]
  }

  /** Every element once, in increasing order. */
  lemma {:induction false} SortedIsOrdered(s: set<nat>)
    ensures forall x :: x in Sorted(s) <==> x in s
    ensures forall i, j :: 0 <= i < j < |Sorted(s)| ==> Sorted(s)[i] < Sorted(s)[j]
  {
    if s != {} {
      var top: nat := Highest(s);
      var init := Sorted(s - {top});
      SortedIsOrdered(s - {top});
      assert Sorted(s) == init + [top];
      forall x
        ensures x in Sorted(s) <==> x in s
      {
        assert x in s <==> x in s - {top} || x == top;
      }
      forall i | 0 <= i < |init|
        ensures init[i] < top
      {
        assert init[i] in s - {top};
      }
    }
  }

  /** A set that grows only above its highest element keeps its order as a prefix. */
  lemma {:induction false} SortedPrefix(a: set<nat>, b: set<nat>)
    requires a <= b && forall x :: x in b && x !in a ==> Highest(a) < x
    ensures Sorted(a) <= Sorted(b)
  {
    if exists x :: x in b && x !in a {
      var x :| x in b && x !in a;
      var top: nat := Highest(b);
      assert top !in a;
      SortedPrefix(a, b - {top});
      assert Sorted(b) == Sorted(b - {top}) + [top];
    } else {
      assert a == b;
    }
  }

  lemma PrefixesCompare(a: seq<nat>, b: seq<nat>, c: seq<nat>)
    requires a <= c && b <= c
    ensures a <= b || b <= a
  {
    if |a| <= |b| {
      assert a == c[..|a|] && b == c[..|b|] && b[..|a|] == c[..|a|];
    } else {
      assert a == c[..|a|] && b == c[..|b|] && a[..|b|] == c[..|b|];
    }
  }
}
