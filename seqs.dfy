/** Array helpers of the JavaScript runtime the services rely on:
    `filter` (keeps order), the stable comparator `sort`, and summation. */
module Seqs {

  /** `xs.filter(keep)`: the elements satisfying `keep`, in their original order. */
  function Filter<T(!new)>(xs: seq<T>, keep: T -> bool): (r: seq<T>)
    ensures |r| <= |xs|
    ensures forall x :: x in r <==> x in xs && keep(x)
    ensures forall x :: multiset(r)[x] == if keep(x) then multiset(xs)[x] else 0
  {
    if xs == [] then []
    else
      assert xs == [xs[0]] + xs[1..];
      (if keep(xs[0]) then [xs[0]] else []) + Filter(xs[1..], keep)
  }

  /** `a` is `b` with some elements left out, the rest kept in order. */
  ghost predicate Subsequence<T>(a: seq<T>, b: seq<T>)
    decreases |b|
  {
    a == [] || (b != [] && ((a[0] == b[0] && Subsequence(a[1..], b[1..])) || Subsequence(a, b[1..])))
  }

  lemma {:induction false} FilterIsSubsequence<T(!new)>(xs: seq<T>, keep: T -> bool)
    ensures Subsequence(Filter(xs, keep), xs)
    decreases |xs|
  {
    if xs != [] {
      var rest := Filter(xs[1..], keep);
      FilterIsSubsequence(xs[1..], keep);
      if keep(xs[0]) {
        var r := [xs[0]] + rest;
        assert Filter(xs, keep) == r;
        assert r[0] == xs[0] && r[1..] == rest;
      } else {
        assert Filter(xs, keep) == rest;
      }
    }
  }

  /** Keeping or dropping one more element in front keeps a subsequence. */
  lemma OptionalCons<T>(keep: bool, x: T, a: seq<T>, b: seq<T>)
    requires Subsequence(a, b)
    ensures Subsequence((if keep then [x] else []) + a, [x] + b)
  {
    var c := (if keep then [x] else []) + a;
    assert ([x] + b)[1..] == b;
    if keep {
      assert c[0] == x && c[1..] == a;
    } else {
      assert c == a;
    }
  }

  /** Every pair of elements, in the order they appear, is related by `le`. */
  ghost predicate SortedBy<T>(xs: seq<T>, le: (T, T) -> bool)
  {
    forall i, j :: 0 <= i < j < |xs| ==> le(xs[i], xs[j])
  }

  /** `le` is total and transitive: the "may come first" relation of a
      consistent comparator. */
  ghost predicate TotalPreorder<T(!new)>(le: (T, T) -> bool)
  {
    && (forall a, b :: le(a, b) || le(b, a))
    && (forall a, b, c :: le(a, b) && le(b, c) ==> le(a, c))
  }

  lemma {:induction false} SubsequenceSorted<T>(a: seq<T>, b: seq<T>, le: (T, T) -> bool)
    requires Subsequence(a, b) && SortedBy(b, le)
    ensures SortedBy(a, le)
    decreases |b|
  {
    if a != [] {
      assert b != [];
      if a[0] == b[0] && Subsequence(a[1..], b[1..]) {
        SubsequenceSorted(a[1..], b[1..], le);
        SubsequenceMembers(a[1..], b[1..]);
        forall i, j | 0 <= i < j < |a| ensures le(a[i], a[j]) {
          if i > 0 {
            assert a[i] == a[1..][i - 1] && a[j] == a[1..][j - 1];
          } else {
            assert a[j] == a[1..][j - 1];
            assert a[j] in b[1..];
          }
        }
      } else {
        SubsequenceSorted(a, b[1..], le);
      }
    }
  }

  lemma {:induction false} SubsequenceMembers<T>(a: seq<T>, b: seq<T>)
    requires Subsequence(a, b)
    ensures forall x :: x in a ==> x in b
    decreases |b|
  {
    if a != [] {
      if a[0] == b[0] && Subsequence(a[1..], b[1..]) {
        SubsequenceMembers(a[1..], b[1..]);
        assert a == [a[0]] + a[1..];
      } else {
        SubsequenceMembers(a, b[1..]);
      }
    }
  }

  /** Filtering a sorted sequence leaves it sorted. */
  lemma FilterSorted<T(!new)>(xs: seq<T>, keep: T -> bool, le: (T, T) -> bool)
    requires SortedBy(xs, le)
    ensures SortedBy(Filter(xs, keep), le)
  {
    FilterIsSubsequence(xs, keep);
    SubsequenceSorted(Filter(xs, keep), xs, le);
  }

  /** Inserts `x` before the first element it may precede. */
  function Insert<T>(x: T, ys: seq<T>, le: (T, T) -> bool): (r: seq<T>)
    ensures multiset(r) == multiset(ys) + multiset{x}
  {
    if ys == [] then [x]
    else if le(x, ys[0]) then [x] + ys
    else
      assert ys == [ys[0]] + ys[1..];
      [ys[0]] + Insert(x, ys[1..], le)
  }

  /** `[...xs].sort(cmp)` with `le(a, b)` standing for `cmp(a, b) <= 0`. The
      JavaScript sort is stable; so is this insertion sort, which places each
      element before the later ones it ties with. */
  function SortBy<T>(xs: seq<T>, le: (T, T) -> bool): (r: seq<T>)
    ensures multiset(r) == multiset(xs)
    ensures |r| == |xs|
  {
    if xs == [] then []
    else
      assert xs == [xs[0]] + xs[1..];
      Insert(xs[0], SortBy(xs[1..], le), le)
  }

  lemma {:induction false} InsertSorted<T(!new)>(x: T, ys: seq<T>, le: (T, T) -> bool)
    requires TotalPreorder(le) && SortedBy(ys, le)
    ensures SortedBy(Insert(x, ys, le), le)
    decreases |ys|
  {
    if ys != [] && !le(x, ys[0]) {
      var rest := Insert(x, ys[1..], le);
      InsertSorted(x, ys[1..], le);
      assert le(ys[0], x);
      forall y | y in rest ensures le(ys[0], y) {
        assert y in multiset(rest);
        if y != x {
          assert y in ys[1..];
        }
      }
      var r := Insert(x, ys, le);
      assert r == [ys[0]] + rest;
      forall i, j | 0 <= i < j < |r| ensures le(r[i], r[j]) {
        assert r[j] == rest[j - 1];
        if i > 0 {
          assert r[i] == rest[i - 1];
        }
      }
    } else if ys != [] {
      var r := Insert(x, ys, le);
      forall i, j | 0 <= i < j < |r| ensures le(r[i], r[j]) {
        if i == 0 {
          assert le(x, ys[0]);
          if j > 1 {
            assert le(ys[0], ys[j - 1]);
          }
        }
      }
    }
  }

  /** Sorting with a consistent comparator yields a sorted permutation. */
  lemma {:induction false} SortBySorted<T(!new)>(xs: seq<T>, le: (T, T) -> bool)
    requires TotalPreorder(le)
    ensures SortedBy(SortBy(xs, le), le)
    decreases |xs|
  {
    if xs != [] {
      SortBySorted(xs[1..], le);
      InsertSorted(xs[0], SortBy(xs[1..], le), le);
    }
  }

  /** The elements `le` ranks equal to `p`. */
  function TiedWith<T>(p: T, le: (T, T) -> bool): T -> bool
  {
    (x: T) => le(x, p) && le(p, x)
  }

  /** Inserting into a sequence keeps the elements of a class whose members
      `le` ranks among themselves in order: an element of the class goes
      before all of them, any other element leaves the class alone. */
  lemma {:induction false} InsertKeepsClass<T(!new)>(x: T, ys: seq<T>, le: (T, T) -> bool, tied: T -> bool)
    requires forall a, b :: tied(a) && tied(b) ==> le(a, b)
    ensures Filter(Insert(x, ys, le), tied) == (if tied(x) then [x] else []) + Filter(ys, tied)
    decreases |ys|
  {
    if ys == [] || le(x, ys[0]) {
      InsertFirst(x, ys, le, tied);
    } else {
      InsertKeepsClass(x, ys[1..], le, tied);
      assert tied(x) ==> !tied(ys[0]);
      if tied(x) {
        InsertPastTied(x, ys, le, tied);
      } else {
        InsertPastUntied(x, ys, le, tied);
      }
    }
  }

  /** `x` inserted in front. */
  lemma InsertFirst<T(!new)>(x: T, ys: seq<T>, le: (T, T) -> bool, tied: T -> bool)
    requires ys == [] || le(x, ys[0])
    ensures Filter(Insert(x, ys, le), tied) == (if tied(x) then [x] else []) + Filter(ys, tied)
  {
    FilterCons(x, ys, tied);
    assert [x] + [] == [x];
  }

  /** Inserting `x` of the class past a first element outside it. */
  lemma InsertPastTied<T(!new)>(x: T, ys: seq<T>, le: (T, T) -> bool, tied: T -> bool)
    requires ys != [] && !le(x, ys[0]) && tied(x) && !tied(ys[0])
    requires Filter(Insert(x, ys[1..], le), tied) == [x] + Filter(ys[1..], tied)
    ensures Filter(Insert(x, ys, le), tied) == [x] + Filter(ys, tied)
  {
    FilterCons(ys[0], Insert(x, ys[1..], le), tied);
    FilterHead(ys, tied);
  }

  /** Inserting `x` from outside the class past the first element. */
  lemma InsertPastUntied<T(!new)>(x: T, ys: seq<T>, le: (T, T) -> bool, tied: T -> bool)
    requires ys != [] && !le(x, ys[0]) && !tied(x)
    requires Filter(Insert(x, ys[1..], le), tied) == Filter(ys[1..], tied)
    ensures Filter(Insert(x, ys, le), tied) == Filter(ys, tied)
  {
    FilterCons(ys[0], Insert(x, ys[1..], le), tied);
    FilterHead(ys, tied);
  }

  /** `filter` looks at the first element, then the rest. */
  lemma FilterHead<T(!new)>(ys: seq<T>, keep: T -> bool)
    requires ys != []
    ensures Filter(ys, keep) == if keep(ys[0]) then [ys[0]] + Filter(ys[1..], keep) else Filter(ys[1..], keep)
  {
  }

  /** `filter` on a sequence with a first element. */
  lemma FilterCons<T(!new)>(y: T, ys: seq<T>, keep: T -> bool)
    ensures Filter([y] + ys, keep) == if keep(y) then [y] + Filter(ys, keep) else Filter(ys, keep)
  {
    assert ([y] + ys)[1..] == ys;
  }

  /** The sort is stable: the elements tied with any `p` come out in the
      order they went in. */
  lemma SortByStable<T(!new)>(xs: seq<T>, le: (T, T) -> bool, p: T)
    requires TotalPreorder(le)
    ensures Filter(SortBy(xs, le), TiedWith(p, le)) == Filter(xs, TiedWith(p, le))
  {
    var tied := TiedWith(p, le);
    forall a, b | tied(a) && tied(b) ensures le(a, b) {
      assert le(a, p) && le(p, b);
    }
    SortByKeepsClass(xs, le, tied);
  }

  lemma {:induction false} SortByKeepsClass<T(!new)>(xs: seq<T>, le: (T, T) -> bool, tied: T -> bool)
    requires forall a, b :: tied(a) && tied(b) ==> le(a, b)
    ensures Filter(SortBy(xs, le), tied) == Filter(xs, tied)
    decreases |xs|
  {
    if xs != [] {
      SortByKeepsClass(xs[1..], le, tied);
      InsertKeepsClass(xs[0], SortBy(xs[1..], le), le, tied);
      FilterHead(xs, tied);
    }
  }

  function Sum(xs: seq<nat>): nat
  {
    if xs == [] then 0 else xs[0] + Sum(xs[1..])
  }

  lemma {:induction false} SumAppend(xs: seq<nat>, ys: seq<nat>)
    ensures Sum(xs + ys) == Sum(xs) + Sum(ys)
    decreases |xs|
  {
    if xs != [] {
      assert (xs + ys)[1..] == xs[1..] + ys;
      SumAppend(xs[1..], ys);
    } else {
      assert xs + ys == ys;
    }
  }

  /** Replacing one element changes the sum by the difference. */
  lemma {:induction false} SumUpdate(xs: seq<nat>, i: nat, v: nat)
    requires i < |xs|
    ensures Sum(xs[i := v]) == Sum(xs) - xs[i] + v
    decreases |xs|
  {
    if i == 0 {
      assert xs[i := v][1..] == xs[1..];
    } else {
      assert xs[i := v][1..] == xs[1..][i - 1 := v];
      SumUpdate(xs[1..], i - 1, v);
    }
  }
}
