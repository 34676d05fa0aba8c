/** Facts about finite sets. */
module Sets {
  lemma SubsetSize<T>(a: set<T>, b: set<T>)
    requires a <= b
    ensures |a| <= |b|
  {
    if a != {} {
      var x :| x in a;
      SubsetSize(a - {x}, b - {x});
    }
  }

  lemma Member<T>(s: set<T>) returns (x: T)
    requires s != {}
    ensures x in s
  {
    x :| x in s;
  }

  lemma LeastMember(s: set<int>) returns (least: int)
    requires s != {}
    ensures least in s && forall x :: x in s ==> least <= x
  {
    var first := Member(s);
    var rest := s - {first};
    least := first;
    if rest != {} {
      var other := LeastMember(rest);
      least := if other < first then other else first;
    }
    forall x | x in s ensures least <= x {
      assert x == first || x in rest;
    }
  }

  /** What a sorted list of these would begin with. */
  function LeastOf(s: set<int>): (least: int)
    requires s != {}
    ensures least in s && forall x :: x in s ==> least <= x
  {
    assert exists m :: m in s && forall x :: x in s ==> m <= x by { var m := LeastMember(s); }
    var m :| m in s && forall x :: x in s ==> m <= x;
    m
  }
}
