/** Laws of sequences the compilers rely on: distinctness, concatenation, totals and sorting. */
module SequenceLaws {

  predicate NoDup<T(==)>(xs: seq<T>) {
    forall i, k | 0 <= i < k < |xs| :: xs[i] != xs[k]
  }

  predicate Disjoint<T(==)>(xs: seq<T>, ys: seq<T>) {
    forall x | x in xs :: x !in ys
  }

  lemma NoDupConcat<T>(xs: seq<T>, ys: seq<T>)
    ensures NoDup(xs + ys) <==> NoDup(xs) && NoDup(ys) && Disjoint(xs, ys)
  {
    var all := xs + ys;
    if NoDup(all) {
      assert forall i | 0 <= i < |xs| :: all[i] == xs[i];
      assert forall k | 0 <= k < |ys| :: all[|xs| + k] == ys[k];
      forall x | x in xs ensures x !in ys {
        var i :| 0 <= i < |xs| && xs[i] == x;
        assert all[i] == x;
      }
      assert NoDup(ys) by {
        forall i, k | 0 <= i < k < |ys| ensures ys[i] != ys[k] {
          assert all[|xs| + i] == ys[i] && all[|xs| + k] == ys[k];
        }
      }
    }
    if NoDup(xs) && NoDup(ys) && Disjoint(xs, ys) {
      forall i, k | 0 <= i < k < |all| ensures all[i] != all[k] {
        assert i < |xs| <= k ==> all[i] in xs && all[k] in ys;
      }
    }
  }

  /** The value occurs at two places. */
  predicate Twice<T(==)>(xs: seq<T>, x: T) {
    exists i, k | 0 <= i < k < |xs| :: xs[i] == x && xs[k] == x
  }

  lemma TwiceInPrefix<T>(xs: seq<T>, ys: seq<T>, x: T)
    requires xs <= ys && Twice(xs, x)
    ensures Twice(ys, x)
  {
  }

  function Map<S, T>(f: S -> T, xs: seq<S>): (ys: seq<T>)
    ensures |ys| == |xs| && forall i | 0 <= i < |xs| :: ys[i] == f(xs[i])
  {
    seq(|xs|, i requires 0 <= i < |xs| => f(xs[i]))
  }

  /** The lists the elements map to, one after the other. */
  function Concat<S, T>(f: S -> seq<T>, xs: seq<S>): seq<T> {
    if xs == [] then [] else Concat(f, xs[..|xs| - 1]) + f(xs[|xs| - 1])
  }

  lemma {:induction false} ConcatGrows<S, T>(f: S -> seq<T>, xs: seq<S>, n: nat)
    requires n < |xs|
    ensures Concat(f, xs[..n + 1]) == Concat(f, xs[..n]) + f(xs[n])
    ensures Concat(f, xs[..n + 1]) <= Concat(f, xs)
    decreases |xs| - n
  {
    assert xs[..n + 1][..n] == xs[..n];
    if n + 1 < |xs| {
      ConcatGrows(f, xs, n + 1);
    } else {
      assert xs[..n + 1] == xs;
    }
  }

  lemma {:induction false} InConcat<S, T>(f: S -> seq<T>, xs: seq<S>, y: T)
    ensures y in Concat(f, xs) <==> exists x | x in xs :: y in f(x)
  {
    if xs != [] {
      var last := |xs| - 1;
      InConcat(f, xs[..last], y);
      assert xs == xs[..last] + [xs[last]];
    }
  }

  /** A concatenation of distinct elements is distinct when the parts are and do not meet. */
  lemma {:induction false} NoDupParts<S, T>(f: S -> seq<T>, xs: seq<S>)
    requires forall x | x in xs :: NoDup(f(x))
    requires forall i, k | 0 <= i < k < |xs| :: Disjoint(f(xs[i]), f(xs[k]))
    ensures NoDup(Concat(f, xs))
  {
    if xs != [] {
      var last := |xs| - 1;
      NoDupParts(f, xs[..last]);
      forall y | y in Concat(f, xs[..last]) ensures y !in f(xs[last]) {
        InConcat(f, xs[..last], y);
        var x :| x in xs[..last] && y in f(x);
        var i :| 0 <= i < last && xs[i] == x;
        assert Disjoint(f(xs[i]), f(xs[last]));
      }
      NoDupConcat(Concat(f, xs[..last]), f(xs[last]));
    }
  }

  // ----- totals

  function Total<T>(f: T -> int, xs: seq<T>): int {
    if xs == [] then 0 else f(xs[0]) + Total(f, xs[1..])
  }

  /** The total is the sum: nothing adds up to zero, one element to its value, two lists to both totals. */
  lemma {:induction false} TotalIsSum<T>(f: T -> int, x: T, xs: seq<T>, ys: seq<T>)
    ensures Total(f, []) == 0 && Total(f, [x]) == f(x)
    ensures Total(f, xs + ys) == Total(f, xs) + Total(f, ys)
  {
    if xs == [] {
      assert xs + ys == ys;
    } else {
      TotalIsSum(f, x, xs[1..], ys);
      assert (xs + ys)[1..] == xs[1..] + ys;
    }
  }

  lemma {:induction false} TotalWithout<T>(f: T -> int, xs: seq<T>, i: nat)
    requires i < |xs|
    ensures Total(f, xs) == f(xs[i]) + Total(f, xs[..i] + xs[i + 1..])
  {
    var rest := xs[..i] + xs[i + 1..];
    if i == 0 {
      assert rest == xs[1..];
    } else {
      TotalWithout(f, xs[1..], i - 1);
      assert rest[1..] == xs[1..][..i - 1] + xs[1..][i..];
    }
  }

  lemma SplitAt<T>(before: seq<T>, x: T, after: seq<T>)
    ensures multiset(before + [x] + after) == multiset{x} + multiset(before + after)
  {
  }

  lemma CancelOne<T>(x: T, a: multiset<T>, b: multiset<T>)
    requires multiset{x} + a == multiset{x} + b
    ensures a == b
  {
    assert a == (multiset{x} + a) - multiset{x};
  }

  lemma WithoutOne<T>(x: T, rest: seq<T>, ys: seq<T>) returns (i: nat)
    requires multiset([x] + rest) == multiset(ys)
    ensures i < |ys| && ys[i] == x && multiset(rest) == multiset(ys[..i] + ys[i + 1..])
  {
    SplitAt([], x, rest);
    assert [] + [x] + rest == [x] + rest && [] + rest == rest;
    assert x in ys by {
      assert x in multiset(ys);
    }
    i :| i < |ys| && ys[i] == x;
    assert ys == ys[..i] + [x] + ys[i + 1..];
    SplitAt(ys[..i], x, ys[i + 1..]);
    CancelOne(x, multiset(rest), multiset(ys[..i] + ys[i + 1..]));
  }

  lemma {:induction false} TotalOfPermutation<T>(f: T -> int, xs: seq<T>, ys: seq<T>)
    requires multiset(xs) == multiset(ys)
    ensures Total(f, xs) == Total(f, ys)
  {
    if xs == [] {
      assert |multiset(ys)| == 0;
    } else {
      assert xs == [xs[0]] + xs[1..];
      var i := WithoutOne(xs[0], xs[1..], ys);
      TotalWithout(f, ys, i);
      TotalOfPermutation(f, xs[1..], ys[..i] + ys[i + 1..]);
    }
  }

  // ----- sorting

  predicate Ascending<T>(key: T -> int, xs: seq<T>) {
    forall i, k | 0 <= i < k < |xs| :: key(xs[i]) <= key(xs[k])
  }

  function InsertBy<T>(key: T -> int, x: T, xs: seq<T>): seq<T> {
    if xs == [] || key(x) <= key(xs[0]) then [x] + xs else [xs[0]] + InsertBy(key, x, xs[1..])
  }

  /** The stable sort by an integer key. */
  function SortBy<T>(key: T -> int, xs: seq<T>): seq<T> {
    if xs == [] then [] else InsertBy(key, xs[0], SortBy(key, xs[1..]))
  }

  lemma {:induction false} InsertKeepsElements<T>(key: T -> int, x: T, xs: seq<T>)
    ensures multiset(InsertBy(key, x, xs)) == multiset{x} + multiset(xs)
  {
    if xs != [] && key(x) > key(xs[0]) {
      InsertKeepsElements(key, x, xs[1..]);
      assert xs == [xs[0]] + xs[1..];
    }
  }

  lemma {:induction false} InsertKeepsOrder<T>(key: T -> int, x: T, xs: seq<T>)
    requires Ascending(key, xs)
    ensures Ascending(key, InsertBy(key, x, xs))
  {
    if xs != [] && key(x) > key(xs[0]) {
      var rest := InsertBy(key, x, xs[1..]);
      assert Ascending(key, xs[1..]);
      InsertKeepsOrder(key, x, xs[1..]);
      InsertKeepsElements(key, x, xs[1..]);
      forall i | 0 <= i < |rest| ensures key(xs[0]) <= key(rest[i]) {
        assert rest[i] in multiset(rest);
        assert rest[i] == x || rest[i] in xs[1..];
      }
    }
  }

  lemma {:induction false} SortSorts<T>(key: T -> int, xs: seq<T>)
    ensures multiset(SortBy(key, xs)) == multiset(xs)
    ensures Ascending(key, SortBy(key, xs))
  {
    if xs != [] {
      SortSorts(key, xs[1..]);
      InsertKeepsElements(key, xs[0], SortBy(key, xs[1..]));
      InsertKeepsOrder(key, xs[0], SortBy(key, xs[1..]));
      assert xs == [xs[0]] + xs[1..];
    }
  }

  predicate DistinctKeys<T>(key: T -> int, xs: seq<T>) {
    forall i, k | 0 <= i < k < |xs| :: key(xs[i]) != key(xs[k])
  }

  /** Sorting keeps distinct keys distinct. */
  lemma {:induction false} SortKeepsDistinct<T>(key: T -> int, xs: seq<T>)
    requires DistinctKeys(key, xs)
    ensures DistinctKeys(key, SortBy(key, xs))
  {
    if xs != [] {
      var rest := SortBy(key, xs[1..]);
      assert DistinctKeys(key, xs[1..]);
      SortKeepsDistinct(key, xs[1..]);
      SortSorts(key, xs[1..]);
      forall y | y in rest ensures key(y) != key(xs[0]) {
        assert y in multiset(rest);
        assert y in xs[1..];
      }
      InsertKeepsDistinct(key, xs[0], rest);
    }
  }

  lemma {:induction false} InsertKeepsDistinct<T>(key: T -> int, x: T, xs: seq<T>)
    requires DistinctKeys(key, xs) && forall y | y in xs :: key(y) != key(x)
    ensures DistinctKeys(key, InsertBy(key, x, xs))
  {
    if xs != [] && key(x) > key(xs[0]) {
      var rest := InsertBy(key, x, xs[1..]);
      InsertKeepsDistinct(key, x, xs[1..]);
      InsertKeepsElements(key, x, xs[1..]);
      forall y | y in rest ensures key(y) != key(xs[0]) {
        assert y in multiset(rest);
        assert y == x || y in xs[1..];
      }
    }
  }

  lemma InsertStep<T>(key: T -> int, x: T, head: T, tail: seq<T>)
    ensures InsertBy(key, x, [head] + tail) ==
      if key(x) <= key(head) then [x] + ([head] + tail) else [head] + InsertBy(key, x, tail)
  {
  }

  lemma {:induction false} InsertsCommute<T>(key: T -> int, x: T, y: T, xs: seq<T>)
    requires key(x) < key(y)
    ensures InsertBy(key, x, InsertBy(key, y, xs)) == InsertBy(key, y, InsertBy(key, x, xs))
  {
    if xs == [] {
      InsertStep(key, x, y, []);
      InsertStep(key, y, x, []);
    } else {
      var head, tail := xs[0], xs[1..];
      assert xs == [head] + tail;
      InsertStep(key, x, head, tail);
      InsertStep(key, y, head, tail);
      if key(head) < key(x) {
        InsertStep(key, x, head, InsertBy(key, y, tail));
        InsertStep(key, y, head, InsertBy(key, x, tail));
        InsertsCommute(key, x, y, tail);
      } else {
        InsertStep(key, y, x, xs);
        InsertStep(key, x, y, xs);
        InsertStep(key, x, head, InsertBy(key, y, tail));
      }
    }
  }

  lemma {:induction false} SortWithout<T>(key: T -> int, xs: seq<T>, i: nat)
    requires i < |xs| && DistinctKeys(key, xs)
    ensures SortBy(key, xs) == InsertBy(key, xs[i], SortBy(key, xs[..i] + xs[i + 1..]))
  {
    var rest := xs[..i] + xs[i + 1..];
    if i == 0 {
      assert rest == xs[1..];
    } else {
      var shorter := xs[1..][..i - 1] + xs[1..][i..];
      assert DistinctKeys(key, xs[1..]);
      SortWithout(key, xs[1..], i - 1);
      assert rest[0] == xs[0] && rest[1..] == shorter;
      assert key(xs[0]) != key(xs[i]);
      if key(xs[0]) < key(xs[i]) {
        InsertsCommute(key, xs[0], xs[i], SortBy(key, shorter));
      } else {
        InsertsCommute(key, xs[i], xs[0], SortBy(key, shorter));
      }
    }
  }

  lemma DistinctWithout<T>(key: T -> int, xs: seq<T>, i: nat)
    requires i < |xs| && DistinctKeys(key, xs)
    ensures DistinctKeys(key, xs[..i] + xs[i + 1..])
  {
  }

  /** With distinct keys the sort forgets the order it started from. */
  lemma {:induction false} SortOfPermutation<T>(key: T -> int, xs: seq<T>, ys: seq<T>)
    requires multiset(xs) == multiset(ys) && DistinctKeys(key, ys)
    ensures SortBy(key, xs) == SortBy(key, ys)
  {
    if xs == [] {
      assert |multiset(ys)| == 0;
    } else {
      assert xs == [xs[0]] + xs[1..];
      var i := WithoutOne(xs[0], xs[1..], ys);
      SortWithout(key, ys, i);
      DistinctWithout(key, ys, i);
      SortOfPermutation(key, xs[1..], ys[..i] + ys[i + 1..]);
    }
  }

  /** Elements that agree on the key and on a projection sort alike. */
  lemma {:induction false} InsertAlike<T, U>(key: T -> int, view: T -> U, x: T, y: T, xs: seq<T>, ys: seq<T>)
    requires |xs| == |ys| && key(x) == key(y) && view(x) == view(y)
    requires forall i | 0 <= i < |xs| :: key(xs[i]) == key(ys[i]) && view(xs[i]) == view(ys[i])
    ensures |InsertBy(key, x, xs)| == |InsertBy(key, y, ys)| == |xs| + 1
    ensures forall i | 0 <= i < |xs| + 1 ::
      && key(InsertBy(key, x, xs)[i]) == key(InsertBy(key, y, ys)[i])
      && view(InsertBy(key, x, xs)[i]) == view(InsertBy(key, y, ys)[i])
  {
    if xs != [] && key(x) > key(xs[0]) {
      InsertAlike(key, view, x, y, xs[1..], ys[1..]);
    }
  }

  lemma {:induction false} SortAlike<T, U>(key: T -> int, view: T -> U, xs: seq<T>, ys: seq<T>)
    requires |xs| == |ys|
    requires forall i | 0 <= i < |xs| :: key(xs[i]) == key(ys[i]) && view(xs[i]) == view(ys[i])
    ensures |SortBy(key, xs)| == |SortBy(key, ys)| == |xs|
    ensures forall i | 0 <= i < |xs| ::
      && key(SortBy(key, xs)[i]) == key(SortBy(key, ys)[i])
      && view(SortBy(key, xs)[i]) == view(SortBy(key, ys)[i])
  {
    if xs != [] {
      SortAlike(key, view, xs[1..], ys[1..]);
      InsertAlike(key, view, xs[0], ys[0], SortBy(key, xs[1..]), SortBy(key, ys[1..]));
    }
  }
}
