/** Facts about finite sets that the counting arguments of several modules share. */
module SetFacts {

  lemma CardinalityAdd<T>(s: set<T>, x: T)
    requires x !in s
    ensures |s + {x}| == |s| + 1
  {
  }

  lemma CardinalityRemove<T>(s: set<T>, x: T)
    requires x in s
    ensures |s - {x}| == |s| - 1
  {
    assert s == (s - {x}) + {x};
  }

  lemma {:induction false} SubsetCardinality<T>(a: set<T>, b: set<T>)
    requires a <= b
    ensures |a| <= |b|
    ensures |a| == |b| ==> a == b
  {
    if a != {} {
      var x :| x in a;
      SubsetCardinality(a - {x}, b - {x});
      CardinalityRemove(a, x);
      CardinalityRemove(b, x);
    }
  }

  ghost predicate InjectiveOn<S, T>(m: map<S, T>) {
    forall x, y :: x in m && y in m && m[x] == m[y] ==> x == y
  }

  /** An injection into `b` shows that its domain is no larger than `b`. */
  lemma {:induction false} InjectionCardinality<S, T>(m: map<S, T>, b: set<T>)
    requires InjectiveOn(m) && forall x :: x in m ==> m[x] in b
    ensures |m.Keys| <= |b|
    decreases m.Keys
  {
    if m.Keys != {} {
      var x :| x in m.Keys;
      var m' := m - {x};
      assert m'.Keys == m.Keys - {x};
      InjectionCardinality(m', b - {m[x]});
      CardinalityRemove(m.Keys, x);
      CardinalityRemove(b, m[x]);
    }
  }

  function Row(i: nat, b: nat): (r: set<(nat, nat)>)
    ensures forall p :: p in r <==> p.0 == i && p.1 < b
    ensures |r| == b
  {
    if b == 0 then {} else Row(i, b - 1) + {(i, b - 1)}
  }

  lemma MulStep(a: int, b: int, before: int, after: int)
    requires before == (a - 1) * b && after == before + b
    ensures after == a * b
  {
  }

  lemma DisjointCardinality<T>(a: set<T>, b: set<T>)
    requires a !! b
    ensures |a + b| == |a| + |b|
  {
  }

  /** The grid of pairs below (a, b). */
  function Pairs(a: nat, b: nat): (r: set<(nat, nat)>)
    ensures forall p :: p in r <==> p.0 < a && p.1 < b
    ensures |r| == a * b
  {
    if a == 0 then {}
    else
      var before, row := Pairs(a - 1, b), Row(a - 1, b);
      DisjointCardinality(before, row);
      MulStep(a, b, |before|, |before + row|);
      before + row
  }

  /** An injection into the grid below (a, b) has a domain of at most a * b elements. */
  lemma GridInjection<S>(m: map<S, (nat, nat)>, a: nat, b: nat)
    requires InjectiveOn(m) && forall x :: x in m ==> m[x].0 < a && m[x].1 < b
    ensures |m.Keys| <= a * b
  {
    InjectionCardinality(m, Pairs(a, b));
  }

  lemma PickOne<T>(s: set<T>) returns (x: T)
    requires |s| > 0
    ensures x in s
  {
    x :| x in s;
  }

  ghost predicate Distinct<T>(q: seq<T>) {
    forall i, j :: 0 <= i < j < |q| ==> q[i] != q[j]
  }

  lemma {:induction false} DistinctCardinality<T>(q: seq<T>)
    requires Distinct(q)
    ensures |set x | x in q| == |q|
  {
    var elements := set x | x in q;
    if q == [] {
      assert elements == {};
    } else {
      var init := q[..|q| - 1];
      DistinctCardinality(init);
      assert q == init + [q[|q| - 1]];
      assert elements == (set x | x in init) + {q[|q| - 1]};
    }
  }
}
