/** Order statistics over finite sets of sequence numbers: minima, ascending
    listings (SQL's ORDER BY) and "the k largest" (SQL's ORDER BY .. DESC LIMIT k). */
module Ranks {

  lemma Member<T>(s: set<T>) returns (x: T)
    requires s != {}
    ensures x in s
  {
    x :| x in s;
  }

  lemma {:induction false} Least(s: set<int>) returns (m: int)
    requires s != {}
    ensures m in s && forall y :: y in s ==> m <= y
    decreases |s|
  {
    var x := Member(s);
    var rest := s - {x};
    assert forall y :: y in s ==> y == x || y in rest;
    if rest == {} {
      m := x;
    } else {
      var least := Least(rest);
      m := if least < x then least else x;
    }
  }

  function Min(s: set<int>): (m: int)
    requires s != {}
    ensures m in s && forall y :: y in s ==> m <= y
  {
    assert exists m :: m in s && forall y :: y in s ==> m <= y by { var m := Least(s); }
    var m :| m in s && forall y :: y in s ==> m <= y;
    m
  }

  lemma MinIsLeast(s: set<int>, y: int)
    requires y in s
    ensures Min(s) <= y
  {
  }

  function Max(s: set<int>): (m: int)
    requires s != {}
    ensures m in s && forall y :: y in s ==> y <= m
  {
    var negated := set y | y in s :: -y;
    assert negated != {} by { var y := Member(s); assert -y in negated; }
    assert forall y :: y in s ==> -y in negated;
    -Min(negated)
  }

  ghost predicate Increasing(r: seq<int>) {
    forall i, j :: 0 <= i < j < |r| ==> r[i] < r[j]
  }

  function Elements<T>(r: seq<T>): set<T> {
    set i | 0 <= i < |r| :: r[i]
  }

  /** The elements of `s` in increasing order. */
  function Ascending(s: set<int>): (r: seq<int>)
    ensures |r| == |s|
    ensures Increasing(r)
    ensures forall x :: x in r <==> x in s
  {
    if s == {} then [] else
      var m := Min(s);
      [m] + Ascending(s - {m})
  }

  function AscendingNats(s: set<nat>): (r: seq<nat>)
    ensures |r| == |s|
    ensures Increasing(r)
    ensures forall x :: x in r <==> x in s
  {
    var r := Ascending(s);
    assert forall i :: 0 <= i < |r| ==> r[i] in r && r[i] in s;
    r
  }

  function Above(a: set<int>, x: int): set<int> {
    set y | y in a && y > x
  }

  /** How many elements of `a` are larger than `x`. */
  function Rank(a: set<int>, x: int): nat {
    |Above(a, x)|
  }

  /** The `k` largest elements of `a` (all of them when there are fewer). */
  function Top(a: set<int>, k: nat): set<int> {
    set x | x in a && Rank(a, x) < k
  }

  lemma TopIsWithin(a: set<int>, k: nat)
    ensures Top(a, k) <= a
  {
  }

  lemma SubsetSize<T>(a: set<T>, b: set<T>)
    requires a <= b
    ensures |a| <= |b|
    ensures |a| == |b| ==> a == b
  {
    assert b == a + (b - a);
    assert |b| == |a| + |b - a|;
  }

  lemma RankMonotone(a: set<int>, b: set<int>, x: int)
    requires a <= b
    ensures Rank(a, x) <= Rank(b, x)
  {
    SubsetSize(Above(a, x), Above(b, x));
  }

  lemma TopIsUpwardClosed(a: set<int>, k: nat, x: int, y: int)
    requires x in Top(a, k) && y in a && x < y
    ensures y in Top(a, k)
  {
    SubsetSize(Above(a, y), Above(a, x));
  }

  /** Removing the minimum of a set with more than `k` elements keeps its top `k`. */
  lemma TopDropMin(a: set<int>, k: nat)
    requires |a| > k
    ensures a != {} && Top(a - {Min(a)}, k) == Top(a, k)
  {
    var m := Min(a);
    var b := a - {m};
    assert Above(a, m) == b;
    forall x | x in b ensures Rank(b, x) == Rank(a, x) {
      assert Above(b, x) == Above(a, x);
    }
  }

  lemma TopAll(a: set<int>, k: nat)
    requires |a| <= k
    ensures Top(a, k) == a
  {
    forall x | x in a ensures Rank(a, x) < k {
      assert x in a && x !in Above(a, x);
      SubsetSize(Above(a, x), a);
    }
  }

  lemma {:induction false} TopSize(a: set<int>, k: nat)
    ensures |Top(a, k)| == if |a| <= k then |a| else k
    decreases |a|
  {
    if |a| <= k {
      TopAll(a, k);
    } else {
      TopDropMin(a, k);
      TopSize(a - {Min(a)}, k);
    }
  }

  /** An element left out of the top `k` has all of the top `k` above it. */
  lemma LeftOutIsBelow(a: set<int>, k: nat, x: int)
    requires x in a && x !in Top(a, k)
    ensures Top(a, k) <= Above(a, x)
    ensures |Top(a, k)| == k
  {
    forall y | y in Top(a, k) ensures y > x {
      if y < x { TopIsUpwardClosed(a, k, y, x); }
    }
    if |a| <= k { TopAll(a, k); }
    TopSize(a, k);
  }

  /** Only the top `k` of a set matters for the top `j <= k` after an insertion. */
  lemma TopAfterInsert(a: set<int>, k: nat, j: nat, x: int)
    requires j <= k
    ensures Top(Top(a, k) + {x}, j) == Top(a + {x}, j)
  {
    var b, c := Top(a, k) + {x}, a + {x};
    forall z
      ensures z in Top(b, j) <==> z in Top(c, j)
    {
      RankMonotone(b, c, z);
      if z in Top(b, j) && Rank(b, z) != Rank(c, z) {
        assert Above(b, z) <= Above(c, z);
        var extra := Above(c, z) - Above(b, z);
        assert extra != {} by { assert Above(c, z) == Above(b, z) + extra; }
        var y := Member(extra);
        LeftOutIsBelow(a, k, y);
        SubsetSize(Top(a, k), Above(b, z));
        assert false;
      }
      if z in Top(c, j) && z !in b {
        RankMonotone(a, c, z);
      }
    }
  }

  /** Peeling the top `j` off a set leaves a set whose own top `k` is what
      completes the top `j + k`. */
  lemma TopOfRest(a: set<int>, j: nat, k: nat)
    ensures Top(a - Top(a, j), k) == Top(a, j + k) - Top(a, j)
  {
    var r := Top(a, j);
    forall z | z in a - r
      ensures Rank(a, z) == j + Rank(a - r, z)
    {
      LeftOutIsBelow(a, j, z);
      assert Above(a, z) == r + Above(a - r, z);
    }
  }

  lemma TopOfTop(a: set<int>, j: nat, k: nat)
    requires j <= k
    ensures Top(a, j) <= Top(a, k)
  {
  }
}
