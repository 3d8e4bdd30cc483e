/** Sequence helpers: Python's list comprehension filter, its stable sort, and sums of reals. */
module Sorting {

  ghost predicate TotalPreorder<T(!new)>(leq: (T, T) -> bool) {
    && (forall x, y :: leq(x, y) || leq(y, x))
    && (forall x, y, z :: leq(x, y) && leq(y, z) ==> leq(x, z))
  }

  ghost predicate Sorted<T>(xs: seq<T>, leq: (T, T) -> bool) {
    forall i, j :: 0 <= i < j < |xs| ==> leq(xs[i], xs[j])
  }

  function Insert<T>(x: T, xs: seq<T>, leq: (T, T) -> bool): seq<T> {
    if |xs| == 0 || leq(x, xs[0]) then [x] + xs else [xs[0]] + Insert(x, xs[1..], leq)
  }

  /** The stable sort of `xs`: an element goes before the later elements it ties with. */
  function Sort<T>(xs: seq<T>, leq: (T, T) -> bool): seq<T> {
    if |xs| == 0 then [] else Insert(xs[0], Sort(xs[1..], leq), leq)
  }

  function Filter<T(!new)>(xs: seq<T>, keep: T -> bool): (r: seq<T>)
    ensures forall x :: x in r <==> x in xs && keep(x)
  {
    if |xs| == 0 then []
    else if keep(xs[0]) then [xs[0]] + Filter(xs[1..], keep)
    else Filter(xs[1..], keep)
  }

  lemma {:induction false} InsertPermutes<T(!new)>(x: T, xs: seq<T>, leq: (T, T) -> bool)
    ensures multiset(Insert(x, xs, leq)) == multiset{x} + multiset(xs)
  {
    if |xs| == 0 || leq(x, xs[0]) {
    } else {
      InsertPermutes(x, xs[1..], leq);
      assert xs == [xs[0]] + xs[1..];
    }
  }

  lemma {:induction false} InsertSorts<T(!new)>(x: T, xs: seq<T>, leq: (T, T) -> bool)
    requires TotalPreorder(leq) && Sorted(xs, leq)
    ensures Sorted(Insert(x, xs, leq), leq)
  {
    if |xs| == 0 {
    } else if leq(x, xs[0]) {
      forall j | 0 <= j < |xs| ensures leq(x, xs[j]) {
        assert leq(xs[0], xs[0]);
      }
    } else {
      InsertSorts(x, xs[1..], leq);
      InsertPermutes(x, xs[1..], leq);
      var r := Insert(x, xs[1..], leq);
      forall j | 0 <= j < |r| ensures leq(xs[0], r[j]) {
        assert r[j] in multiset(r);
        assert r[j] == x || r[j] in xs[1..];
      }
    }
  }

  lemma {:induction false} SortPermutes<T(!new)>(xs: seq<T>, leq: (T, T) -> bool)
    ensures multiset(Sort(xs, leq)) == multiset(xs)
  {
    if |xs| == 0 {
    } else {
      SortPermutes(xs[1..], leq);
      InsertPermutes(xs[0], Sort(xs[1..], leq), leq);
      assert xs == [xs[0]] + xs[1..];
    }
  }

  lemma {:induction false} SortIsSorted<T(!new)>(xs: seq<T>, leq: (T, T) -> bool)
    requires TotalPreorder(leq)
    ensures Sorted(Sort(xs, leq), leq)
  {
    if |xs| == 0 {
    } else {
      SortIsSorted(xs[1..], leq);
      InsertSorts(xs[0], Sort(xs[1..], leq), leq);
    }
  }

  lemma {:induction false} SameElements<T(!new)>(a: seq<T>, b: seq<T>)
    requires multiset(a) == multiset(b)
    ensures |a| == |b| && forall x :: x in a <==> x in b
  {
    assert |multiset(a)| == |multiset(b)|;
    forall x ensures x in a <==> x in b {
      assert x in multiset(a) <==> x in multiset(b);
    }
  }

  /** `Sort` returns a sorted permutation. */
  lemma {:induction false} SortSorts<T(!new)>(xs: seq<T>, leq: (T, T) -> bool)
    requires TotalPreorder(leq)
    ensures Sorted(Sort(xs, leq), leq)
    ensures multiset(Sort(xs, leq)) == multiset(xs)
    ensures |Sort(xs, leq)| == |xs|
    ensures forall x :: x in Sort(xs, leq) <==> x in xs
  {
    SortIsSorted(xs, leq);
    SortPermutes(xs, leq);
    SameElements(Sort(xs, leq), xs);
  }

  lemma {:induction false} AppendAssociates<T>(a: seq<T>, b: seq<T>, c: seq<T>)
    ensures a + (b + c) == (a + b) + c
  {
  }

  lemma {:induction false} FilterAppend<T(!new)>(xs: seq<T>, ys: seq<T>, keep: T -> bool)
    ensures Filter(xs + ys, keep) == Filter(xs, keep) + Filter(ys, keep)
  {
    if |xs| == 0 {
      assert xs + ys == ys;
      assert Filter(xs, keep) + Filter(ys, keep) == Filter(ys, keep);
    } else {
      FilterAppend(xs[1..], ys, keep);
      assert (xs + ys)[1..] == xs[1..] + ys;
      if keep(xs[0]) {
        AppendAssociates([xs[0]], Filter(xs[1..], keep), Filter(ys, keep));
      }
    }
  }

  /** All elements that `tied` selects tie with each other. */
  ghost predicate Ties<T(!new)>(leq: (T, T) -> bool, tied: T -> bool) {
    forall x, y :: tied(x) && tied(y) ==> leq(x, y)
  }

  lemma {:induction false} InsertIsStable<T(!new)>(x: T, xs: seq<T>, leq: (T, T) -> bool, tied: T -> bool)
    requires Ties(leq, tied)
    ensures Filter(Insert(x, xs, leq), tied) == (if tied(x) then [x] else []) + Filter(xs, tied)
  {
    if |xs| == 0 || leq(x, xs[0]) {
      FilterAppend([x], xs, tied);
      assert [x][1..] == [];
    } else {
      InsertIsStable(x, xs[1..], leq, tied);
      assert !(tied(x) && tied(xs[0]));
      assert ([xs[0]] + Insert(x, xs[1..], leq))[1..] == Insert(x, xs[1..], leq);
      assert [] + Filter(xs, tied) == Filter(xs, tied);
      assert [] + Filter(xs[1..], tied) == Filter(xs[1..], tied);
    }
  }

  /** The sort is stable: elements that tie stay in their order. */
  lemma {:induction false} SortIsStable<T(!new)>(xs: seq<T>, leq: (T, T) -> bool, tied: T -> bool)
    requires Ties(leq, tied)
    ensures Filter(Sort(xs, leq), tied) == Filter(xs, tied)
  {
    if |xs| > 0 {
      SortIsStable(xs[1..], leq, tied);
      InsertIsStable(xs[0], Sort(xs[1..], leq), leq, tied);
      assert [] + Filter(xs[1..], tied) == Filter(xs[1..], tied);
    }
  }

  function SumBy<T>(f: T -> real, xs: seq<T>): real {
    if |xs| == 0 then 0.0 else f(xs[0]) + SumBy(f, xs[1..])
  }

  lemma {:induction false} SumByAppend<T>(f: T -> real, xs: seq<T>, ys: seq<T>)
    ensures SumBy(f, xs + ys) == SumBy(f, xs) + SumBy(f, ys)
  {
    if |xs| == 0 {
      assert xs + ys == ys;
    } else {
      SumByAppend(f, xs[1..], ys);
      assert (xs + ys)[1..] == xs[1..] + ys;
    }
  }

  lemma {:induction false} SumByInsert<T>(f: T -> real, x: T, xs: seq<T>, leq: (T, T) -> bool)
    ensures SumBy(f, Insert(x, xs, leq)) == f(x) + SumBy(f, xs)
  {
    if |xs| == 0 || leq(x, xs[0]) {
    } else {
      SumByInsert(f, x, xs[1..], leq);
    }
  }

  lemma {:induction false} SumBySort<T>(f: T -> real, xs: seq<T>, leq: (T, T) -> bool)
    ensures SumBy(f, Sort(xs, leq)) == SumBy(f, xs)
  {
    if |xs| == 0 {
    } else {
      SumBySort(f, xs[1..], leq);
      SumByInsert(f, xs[0], Sort(xs[1..], leq), leq);
    }
  }

  function Min(a: real, b: real): real { if a <= b then a else b }

  function Max(a: real, b: real): real { if a >= b then a else b }
}
