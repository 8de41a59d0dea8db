/** Small facts about finite sets and sequences. */
module Collections {

  lemma {:induction false} SubsetIsSmaller<T>(a: set<T>, b: set<T>)
    requires a <= b
    ensures |a| <= |b|
  {
    if a != {} {
      var x :| x in a;
      SubsetIsSmaller(a - {x}, b - {x});
    }
  }

  ghost predicate NoRepeats<T>(q: seq<T>) {
    forall i, j :: 0 <= i < j < |q| ==> q[i] != q[j]
  }

  function Elements<T(==)>(q: seq<T>): set<T> {
    set x | x in q
  }

  lemma {:induction false} ElementCount<T>(q: seq<T>)
    requires NoRepeats(q)
    ensures |Elements(q)| == |q|
  {
    if q != [] {
      var front, last := q[..|q| - 1], q[|q| - 1];
      ElementCount(front);
      assert q == front + [last];
      assert Elements(q) == Elements(front) + {last};
      assert last !in Elements(front);
    } else {
      assert Elements(q) == {};
    }
  }

  lemma DisjointSizes<T>(a: set<T>, b: set<T>, c: set<T>, d: set<T>)
    requires a !! b && a !! c && a !! d && b !! c && b !! d && c !! d
    ensures |a + b| == |a| + |b|
    ensures |a + b + c + d| == |a| + |b| + |c| + |d|
  {
    assert (a + b) !! c && (a + b + c) !! d;
  }

  lemma {:induction false} NoRepeatsMultiplicity<T>(q: seq<T>, x: T)
    requires NoRepeats(q)
    ensures multiset(q)[x] <= 1
  {
    if q != [] {
      var front, last := q[..|q| - 1], q[|q| - 1];
      assert q == front + [last];
      NoRepeatsMultiplicity(front, x);
      if x == last {
        assert x !in front;
        assert multiset(front)[x] == 0;
      }
    }
  }

  lemma CountedTwice<T>(p: seq<T>, i: nat, j: nat)
    requires i < j < |p| && p[i] == p[j]
    ensures multiset(p)[p[i]] >= 2
  {
    assert p == p[..j] + p[j..];
    assert p[i] in p[..j] && p[j] in p[j..];
    assert multiset(p) == multiset(p[..j]) + multiset(p[j..]);
  }

  lemma PermutationHasNoRepeats<T>(p: seq<T>, q: seq<T>)
    requires NoRepeats(q) && multiset(p) == multiset(q)
    ensures NoRepeats(p)
  {
    forall i, j | 0 <= i < j < |p| ensures p[i] != p[j] {
      if p[i] == p[j] {
        CountedTwice(p, i, j);
        NoRepeatsMultiplicity(q, p[j]);
        assert false;
      }
    }
  }

  /** Go's `range` over the keys of a map: all of them, each once, in an order nobody may rely on. */
  method RangeOver<K(==)>(keys: set<K>) returns (order: seq<K>)
    ensures NoRepeats(order) && Elements(order) == keys
  {
    order := [];
    var rest := keys;
    while rest != {}
      invariant rest <= keys && Elements(order) == keys - rest && NoRepeats(order)
      decreases |rest|
    {
      var k :| k in rest;
      assert k !in Elements(order) && Elements(order + [k]) == Elements(order) + {k};
      rest := rest - {k};
      order := order + [k];
    }
  }
}
