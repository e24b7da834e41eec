/** The aggregates the statistics handlers ask the database for: `_sum`,
    `count` and `groupBy ... orderBy asc`, over sets of record ids. */
module Aggregates {

  /** The sum of `f` over `ks`, as `aggregate({ _sum })` computes it. */
  ghost function SumOver(ks: set<nat>, f: nat -> int): int
    decreases ks
  {
    if ks == {} then 0
    else
      var k :| k in ks;
      f(k) + SumOver(ks - {k}, f)
  }

  /** Taking any one element out first gives the same sum. */
  lemma {:induction false} SumOverRemove(ks: set<nat>, f: nat -> int, x: nat)
    requires x in ks
    ensures SumOver(ks, f) == f(x) + SumOver(ks - {x}, f)
    decreases ks
  {
    var k :| k in ks && SumOver(ks, f) == f(k) + SumOver(ks - {k}, f);
    if k != x {
      SumOverRemove(ks - {k}, f, x);
      SumOverRemove(ks - {x}, f, k);
      assert ks - {k} - {x} == ks - {x} - {k};
    }
  }

  /** A sum of non-negative terms is non-negative, and it is zero when
      every term is. */
  lemma {:induction false} SumOverNonNegative(ks: set<nat>, f: nat -> int)
    requires forall k :: k in ks ==> f(k) >= 0
    ensures SumOver(ks, f) >= 0
    ensures (forall k :: k in ks ==> f(k) == 0) ==> SumOver(ks, f) == 0
    decreases ks
  {
    if ks != {} {
      var k :| k in ks && SumOver(ks, f) == f(k) + SumOver(ks - {k}, f);
      SumOverNonNegative(ks - {k}, f);
    }
  }

  /** Terms outside the set play no part. */
  lemma {:induction false} SumOverAgree(ks: set<nat>, f: nat -> int, g: nat -> int)
    requires forall k :: k in ks ==> f(k) == g(k)
    ensures SumOver(ks, f) == SumOver(ks, g)
    decreases ks
  {
    if ks != {} {
      var k :| k in ks && SumOver(ks, f) == f(k) + SumOver(ks - {k}, f);
      SumOverRemove(ks, g, k);
      SumOverAgree(ks - {k}, f, g);
    }
  }

  /** Terms between `lo` and `hi` give a sum between `lo` and `hi` times
      the number of terms. */
  lemma {:induction false} SumOverBounds(ks: set<nat>, f: nat -> int, lo: int, hi: int)
    requires forall k :: k in ks ==> lo <= f(k) <= hi
    ensures lo * |ks| <= SumOver(ks, f) <= hi * |ks|
    decreases ks
  {
    if ks != {} {
      var k :| k in ks && SumOver(ks, f) == f(k) + SumOver(ks - {k}, f);
      var rest := ks - {k};
      SumOverBounds(rest, f, lo, hi);
      assert |ks| == |rest| + 1;
      OneMore(lo, |rest|);
      OneMore(hi, |rest|);
    }
  }

  lemma OneMore(a: int, m: nat)
    ensures a * (m + 1) == a + a * m
  {
  }

  /** The mean of terms between `lo` and `hi` lies between them. */
  lemma MeanBounds(sum: int, n: nat, lo: int, hi: int)
    requires n > 0 && lo * n <= sum <= hi * n
    ensures lo as real <= sum as real / n as real <= hi as real
  {
    assert (lo * n) as real == lo as real * n as real;
    assert (hi * n) as real == hi as real * n as real;
  }

  lemma NoElementEmpty(xs: set<int>)
    requires forall x: int :: x !in xs
    ensures xs == {}
  {
    var none: set<int> := {};
    assert forall x: int :: x in xs <==> x in none;
  }

  /** A non-empty set has an element to pick. */
  lemma HasElement(xs: set<int>)
    requires xs != {}
    ensures exists x :: x in xs
  {
    if forall x: int :: x !in xs {
      NoElementEmpty(xs);
    }
  }

  /** A finite non-empty set of integers has a least element. */
  lemma {:induction false} LeastExists(xs: set<int>)
    requires xs != {}
    ensures exists m :: m in xs && forall y :: y in xs ==> m <= y
    decreases xs
  {
    HasElement(xs);
    var x :| x in xs;
    var rest := xs - {x};
    if rest != {} {
      LeastExists(rest);
      var m :| m in rest && forall y :: y in rest ==> m <= y;
      var least := if x < m then x else m;
      forall y | y in xs ensures least <= y {
        if y != x {
          assert y in rest;
        }
      }
    } else {
      forall y | y in xs ensures x <= y {
        assert y !in rest;
      }
    }
  }

  /** The elements of `xs` in ascending order, each once. */
  ghost function Ascending(xs: set<int>): (r: seq<int>)
    ensures forall i, j :: 0 <= i < j < |r| ==> r[i] < r[j]
    ensures forall x :: x in r <==> x in xs
    decreases xs
  {
    if xs == {} then []
    else
      LeastExists(xs);
      var m :| m in xs && forall y :: y in xs ==> m <= y;
      var rest := Ascending(xs - {m});
      assert forall i :: 0 <= i < |rest| ==> m < rest[i] by {
        forall i | 0 <= i < |rest| ensures m < rest[i] {
          assert rest[i] in xs - {m};
        }
      }
      [m] + rest
  }

  /** A map that sends distinct elements to distinct images cannot make a
      set larger: `|a| <= |b|` when `f` is one-to-one from `a` into `b`. */
  lemma {:induction false} InjectionBound(a: set<nat>, b: set<nat>, f: nat -> nat)
    requires forall x :: x in a ==> f(x) in b
    requires forall x, y :: x in a && y in a && f(x) == f(y) ==> x == y
    ensures |a| <= |b|
    decreases a
  {
    if a != {} {
      var x :| x in a;
      InjectionBound(a - {x}, b - {f(x)}, f);
    }
  }

  /** A subset is no larger than its superset. */
  lemma SubsetBound(a: set<nat>, b: set<nat>)
    requires a <= b
    ensures |a| <= |b|
  {
    InjectionBound(a, b, x => x);
  }

  /** The sum of `f` over a list of ids, in list order. */
  function SeqSum(ids: seq<nat>, f: nat -> int): int {
    if ids == [] then 0 else SeqSum(ids[..|ids| - 1], f) + f(ids[|ids| - 1])
  }

  /** The ids a list holds. */
  function Elems(ids: seq<nat>): set<nat> {
    set k | k in ids
  }

  /** Over a list without repeats, the sum in list order is the sum over
      the set of its ids. */
  lemma {:induction false} SeqSumIsSumOver(ids: seq<nat>, f: nat -> int)
    requires forall i, j :: 0 <= i < j < |ids| ==> ids[i] != ids[j]
    ensures SeqSum(ids, f) == SumOver(Elems(ids), f)
  {
    if ids != [] {
      var n := |ids| - 1;
      var front := ids[..n];
      SeqSumIsSumOver(front, f);
      assert Elems(ids) - {ids[n]} == Elems(front) by {
        DropLast(ids);
      }
      SumOverRemove(Elems(ids), f, ids[n]);
    }
  }

  /** Without repeats, dropping the last id drops it from the set. */
  lemma DropLast(ids: seq<nat>)
    requires ids != []
    requires forall i, j :: 0 <= i < j < |ids| ==> ids[i] != ids[j]
    ensures forall k :: k in ids[..|ids| - 1] <==> k in ids && k != ids[|ids| - 1]
  {
    var n := |ids| - 1;
    forall k | k in ids && k != ids[n] ensures k in ids[..n] {
      var i :| 0 <= i < |ids| && ids[i] == k;
      assert ids[..n][i] == k;
    }
  }

  /** A list without repeats has as many ids as its set. */
  lemma {:induction false} DistinctCard(ids: seq<nat>)
    requires forall i, j :: 0 <= i < j < |ids| ==> ids[i] != ids[j]
    ensures |Elems(ids)| == |ids|
  {
    if ids != [] {
      var n := |ids| - 1;
      DistinctCard(ids[..n]);
      assert Elems(ids) - {ids[n]} == Elems(ids[..n]) by {
        DropLast(ids);
      }
    }
  }
}
