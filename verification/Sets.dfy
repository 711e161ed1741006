/** Finite-set facts shared by the other modules. */
module Sets {

  lemma Member<T>(s: set<T>) returns (x: T)
    requires s != {}
    ensures x in s
  {
    x :| x in s;
  }

  lemma HasMember<T>(s: set<T>)
    requires s != {}
    ensures exists x :: x in s
  {
    var x := Member(s);
  }

  lemma {:induction false} SubsetSize<T>(small: set<T>, large: set<T>)
    requires small <= large
    ensures |small| <= |large|
    decreases |small|
  {
    if small != {} {
      var x := Member(small);
      SubsetSize(small - {x}, large - {x});
    }
  }

  lemma {:induction false} Bounded(s: set<nat>) returns (n: nat)
    ensures forall x :: x in s ==> x < n
    decreases |s|
  {
    if s == {} {
      n := 0;
    } else {
      var x := Member(s);
      var m := Bounded(s - {x});
      n := if m <= x then x + 1 else m;
      assert forall y :: y in s ==> y == x || y in s - {x};
    }
  }
}
