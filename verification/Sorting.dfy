/** Sets of numbers in ascending order, as Python's sorted() of a set. */
module Sorting {

  predicate StrictlyAscending(s: seq<int>)
  {
    forall i, j | 0 <= i < j < |s| :: s[i] < s[j]
  }

  lemma Some(s: set<int>) returns (y: int)
    requires s != {}
    ensures y in s
  {
    assert (forall x: int :: x !in s) ==> s == {};
    y :| y in s;
  }

  lemma {:induction false} LeastExists(s: set<int>)
    requires s != {}
    ensures exists m :: m in s && forall x | x in s :: m <= x
    decreases |s|
  {
    var y := Some(s);
    var rest := s - {y};
    if rest != {} {
      LeastExists(rest);
      var m :| m in rest && forall x | x in rest :: m <= x;
      var least := if m < y then m else y;
      assert forall x | x in s :: x == y || x in rest;
      assert least in s && forall x | x in s :: least <= x;
    } else {
      assert forall x | x in s :: x == y || x in rest;
    }
  }

  function Least(s: set<int>): (m: int)
    requires s != {}
    ensures m in s && forall x | x in s :: m <= x
  {
    LeastExists(s);
    var m :| m in s && forall x | x in s :: m <= x;
    m
  }

  function Ascending(s: set<int>): (r: seq<int>)
    ensures StrictlyAscending(r) && |r| == |s|
    ensures forall x :: x in r <==> x in s
    decreases |s|
  {
    if s == {} then []
    else
      var m := Least(s);
      [m] + Ascending(s - {m})
  }

  lemma {:induction false} AscendingUnique(a: seq<int>, b: seq<int>)
    requires StrictlyAscending(a) && StrictlyAscending(b)
    requires forall x :: x in a <==> x in b
    ensures a == b
    decreases |a|
  {
    assert a != [] ==> a[0] in a;
    assert b != [] ==> b[0] in b;
    if a != [] {
      assert a[0] == b[0];
      forall x
        ensures x in a[1..] <==> x in b[1..]
      {
        assert x in a[1..] <==> x in a && x != a[0];
        assert x in b[1..] <==> x in b && x != b[0];
      }
      AscendingUnique(a[1..], b[1..]);
    }
  }
}
