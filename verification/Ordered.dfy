/** Smallest and largest keys of finite maps: what iterating a B-tree map gives first and last. */
module Ordered {

  lemma {:induction false} FindLeast(s: set<nat>) returns (k: nat)
    requires s != {}
    ensures k in s && forall j :: j in s ==> k <= j
  {
    var x :| x in s;
    k := x;
    var rest := s - {x};
    if rest != {} {
      var y := FindLeast(rest);
      k := if x < y then x else y;
      forall j | j in s ensures k <= j {
        assert j == x || j in rest;
      }
    } else {
      assert s == {x};
    }
  }

  lemma {:induction false} FindGreatest(s: set<nat>) returns (k: nat)
    requires s != {}
    ensures k in s && forall j :: j in s ==> j <= k
  {
    var x :| x in s;
    k := x;
    var rest := s - {x};
    if rest != {} {
      var y := FindGreatest(rest);
      k := if x > y then x else y;
      forall j | j in s ensures j <= k {
        assert j == x || j in rest;
      }
    } else {
      assert s == {x};
    }
  }

  lemma LeastExists(s: set<nat>)
    requires s != {}
    ensures exists k :: k in s && forall j :: j in s ==> k <= j
  {
    var k := FindLeast(s);
  }

  lemma GreatestExists(s: set<nat>)
    requires s != {}
    ensures exists k :: k in s && forall j :: j in s ==> j <= k
  {
    var k := FindGreatest(s);
  }

  function Least(s: set<nat>): (k: nat)
    requires s != {}
    ensures k in s && forall j :: j in s ==> k <= j
  {
    LeastExists(s);
    var k :| k in s && forall j :: j in s ==> k <= j;
    k
  }

  function Greatest(s: set<nat>): (k: nat)
    requires s != {}
    ensures k in s && forall j :: j in s ==> j <= k
  {
    GreatestExists(s);
    var k :| k in s && forall j :: j in s ==> j <= k;
    k
  }
}
