/** Helper types and counting lemmas shared by the transition systems. */
module Common {

  datatype Option<+T> = None | Some(value: T)

  /** Number of elements of s that satisfy p. */
  function Count<T>(s: seq<T>, p: T -> bool): (n: nat)
    ensures n <= |s|
  {
    if s == [] then 0
    else Count(s[..|s| - 1], p) + if p(s[|s| - 1]) then 1 else 0
  }

  lemma CountAppend<T>(s: seq<T>, x: T, p: T -> bool)
    ensures Count(s + [x], p) == Count(s, p) + if p(x) then 1 else 0
  {
    assert (s + [x])[..|s|] == s;
  }

  lemma {:induction false} CountUpdate<T>(s: seq<T>, i: nat, x: T, p: T -> bool)
    requires i < |s|
    ensures Count(s[i := x], p) + (if p(s[i]) then 1 else 0) == Count(s, p) + if p(x) then 1 else 0
  {
    var n := |s| - 1;
    if i == n {
      assert s[i := x][..n] == s[..n];
    } else {
      assert s[i := x][..n] == s[..n][i := x];
      CountUpdate(s[..n], i, x, p);
    }
  }

  /** A weaker predicate counts at least as many elements. */
  lemma {:induction false} CountMonotone<T>(s: seq<T>, p: T -> bool, q: T -> bool)
    requires forall i :: 0 <= i < |s| && p(s[i]) ==> q(s[i])
    ensures Count(s, p) <= Count(s, q)
  {
    if s != [] {
      CountMonotone(s[..|s| - 1], p, q);
    }
  }

  lemma {:induction false} CountPositive<T>(s: seq<T>, p: T -> bool)
    ensures Count(s, p) > 0 <==> exists i :: 0 <= i < |s| && p(s[i])
  {
    if s != [] {
      var r := s[..|s| - 1];
      CountPositive(r, p);
      if Count(r, p) > 0 {
        var i :| 0 <= i < |r| && p(r[i]);
        assert p(s[i]);
      }
      if exists i :: 0 <= i < |s| && p(s[i]) {
        var i :| 0 <= i < |s| && p(s[i]);
        if i < |r| { assert p(r[i]); }
      }
    }
  }

  function Elements<T(==)>(xs: seq<T>): set<T> {
    set x | x in xs
  }

  /** xs lists the elements of ids, each once, in some order. */
  ghost predicate IsOrderingOf<T>(xs: seq<T>, ids: set<T>) {
    && Elements(xs) == ids
    && (forall i, j :: 0 <= i < j < |xs| ==> xs[i] != xs[j])
  }

  lemma OrderingMembers<T>(xs: seq<T>, ids: set<T>, x: T)
    requires IsOrderingOf(xs, ids)
    ensures x in xs <==> x in ids
  {
    assert x in xs <==> x in Elements(xs);
  }

  lemma {:induction false} OrderingLength<T>(xs: seq<T>, ids: set<T>)
    requires IsOrderingOf(xs, ids)
    ensures |xs| == |ids|
  {
    if xs == [] {
      assert ids == {};
    } else {
      var n := |xs| - 1;
      var rest := xs[..n];
      forall x | x in ids - {xs[n]} ensures x in rest {
        assert x in xs;
        var k :| 0 <= k < |xs| && xs[k] == x;
        assert rest[k] == x;
      }
      assert Elements(rest) == ids - {xs[n]};
      OrderingLength(rest, ids - {xs[n]});
    }
  }

  lemma OrderingGrows<T>(xs: seq<T>, ids: set<T>, x: T)
    requires IsOrderingOf(xs, ids) && x !in ids
    ensures IsOrderingOf(xs + [x], ids + {x})
  {
    assert Elements(xs + [x]) == Elements(xs) + {x};
    OrderingMembers(xs, ids, x);
  }

  /** Every finite set can be listed. */
  lemma {:induction false} OrderingExists<T>(ids: set<T>) returns (xs: seq<T>)
    ensures IsOrderingOf(xs, ids)
  {
    if ids == {} {
      xs := [];
    } else {
      var x :| x in ids;
      var rest := OrderingExists(ids - {x});
      xs := rest + [x];
      assert Elements(xs) == Elements(rest) + {x};
    }
  }

  lemma SubsetSize<T>(a: set<T>, b: set<T>)
    requires a <= b
    ensures |a| <= |b|
    ensures |a| == |b| ==> a == b
  {
    assert b == a + (b - a);
  }
}
