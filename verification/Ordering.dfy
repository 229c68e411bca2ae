/** ORDER BY as a function, and why any other sorting algorithm would give the same answer. */
module Ordering {
  import opened Wrappers

  function Insert<T>(before: (T, T) -> bool, x: T, xs: seq<T>): seq<T> {
    if xs == [] then [x]
    else if before(xs[0], x) then [xs[0]] + Insert(before, x, xs[1..])
    else [x] + xs
  }

  function SortBy<T>(before: (T, T) -> bool, xs: seq<T>): seq<T> {
    if xs == [] then [] else Insert(before, xs[0], SortBy(before, xs[1..]))
  }

  function Reverse<T>(xs: seq<T>): seq<T> {
    if xs == [] then [] else Reverse(xs[1..]) + [xs[0]]
  }

  function Take<T>(xs: seq<T>, n: nat): seq<T> {
    if n <= |xs| then xs[..n] else xs
  }

  function LastN<T>(xs: seq<T>, n: nat): seq<T> {
    if n <= |xs| then xs[|xs| - n..] else xs
  }

  ghost predicate Sorted<T>(before: (T, T) -> bool, xs: seq<T>) {
    forall i, j :: 0 <= i < j < |xs| ==> !before(xs[j], xs[i])
  }

  /** Each element comes strictly before every one to its left. */
  ghost predicate Descending<T>(before: (T, T) -> bool, xs: seq<T>) {
    forall i, j :: 0 <= i < j < |xs| ==> before(xs[j], xs[i])
  }

  ghost predicate WeakOrder<T(!new)>(before: (T, T) -> bool) {
    && (forall a, b :: before(a, b) ==> !before(b, a))
    && (forall a, b, c :: before(a, c) ==> before(a, b) || before(b, c))
  }

  /** No two different elements tie. */
  ghost predicate Decides<T>(before: (T, T) -> bool, xs: seq<T>) {
    forall a, b :: a in xs && b in xs && a != b ==> before(a, b) || before(b, a)
  }

  lemma {:induction false} InsertKeepsElements<T>(before: (T, T) -> bool, x: T, xs: seq<T>)
    ensures multiset(Insert(before, x, xs)) == multiset(xs) + multiset{x}
  {
    if xs == [] {
    } else {
      assert xs == [xs[0]] + xs[1..];
      InsertKeepsElements(before, x, xs[1..]);
    }
  }

  lemma {:induction false} SortKeepsElements<T>(before: (T, T) -> bool, xs: seq<T>)
    ensures multiset(SortBy(before, xs)) == multiset(xs)
    ensures |SortBy(before, xs)| == |xs|
  {
    if xs == [] {
    } else {
      assert xs == [xs[0]] + xs[1..];
      SortKeepsElements(before, xs[1..]);
      InsertKeepsElements(before, xs[0], SortBy(before, xs[1..]));
    }
    assert |multiset(SortBy(before, xs))| == |multiset(xs)|;
  }

  lemma {:induction false} InsertSorts<T(!new)>(before: (T, T) -> bool, x: T, xs: seq<T>)
    requires WeakOrder(before) && Sorted(before, xs)
    ensures Sorted(before, Insert(before, x, xs))
  {
    if xs == [] || !before(xs[0], x) {
    } else {
      InsertSorts(before, x, xs[1..]);
      InsertKeepsElements(before, x, xs[1..]);
      var rest := Insert(before, x, xs[1..]);
      forall j | 0 <= j < |rest| ensures !before(rest[j], xs[0]) {
        assert rest[j] in multiset(rest);
        assert rest[j] == x || rest[j] in xs[1..];
      }
    }
  }

  lemma {:induction false} SortSorts<T(!new)>(before: (T, T) -> bool, xs: seq<T>)
    requires WeakOrder(before)
    ensures Sorted(before, SortBy(before, xs))
  {
    if xs == [] {
    } else {
      SortSorts(before, xs[1..]);
      InsertSorts(before, xs[0], SortBy(before, xs[1..]));
    }
  }

  lemma FirstIsLeast<T>(before: (T, T) -> bool, xs: seq<T>, x: T)
    requires Sorted(before, xs) && x in xs && x != xs[0]
    ensures !before(x, xs[0])
  {
  }

  lemma SameFirst<T>(before: (T, T) -> bool, xs: seq<T>, ys: seq<T>)
    requires xs != [] && ys != [] && Decides(before, xs)
    requires Sorted(before, xs) && Sorted(before, ys) && multiset(xs) == multiset(ys)
    ensures xs[0] == ys[0]
  {
    assert xs[0] in multiset(ys) && ys[0] in multiset(xs);
    assert xs[0] in xs && ys[0] in xs && xs[0] in ys;
    if xs[0] != ys[0] {
      FirstIsLeast(before, xs, ys[0]);
      FirstIsLeast(before, ys, xs[0]);
    }
  }

  lemma DropFirst<T>(xs: seq<T>)
    requires xs != []
    ensures multiset(xs[1..]) == multiset(xs) - multiset{xs[0]}
  {
    assert xs == [xs[0]] + xs[1..];
  }

  lemma {:induction false} SortedIsUnique<T(!new)>(before: (T, T) -> bool, xs: seq<T>, ys: seq<T>)
    requires Decides(before, xs)
    requires Sorted(before, xs) && Sorted(before, ys) && multiset(xs) == multiset(ys)
    ensures xs == ys
  {
    assert |multiset(xs)| == |multiset(ys)|;
    if xs == [] {
    } else {
      SameFirst(before, xs, ys);
      DropFirst(xs);
      DropFirst(ys);
      SortedIsUnique(before, xs[1..], ys[1..]);
      assert xs == [xs[0]] + xs[1..] && ys == [ys[0]] + ys[1..];
    }
  }

  /** Whatever the database does to sort: an ordered answer over elements without ties is this one. */
  lemma OrderByIsDetermined<T(!new)>(before: (T, T) -> bool, xs: seq<T>, answer: seq<T>)
    requires WeakOrder(before) && Decides(before, xs)
    requires Sorted(before, answer) && multiset(answer) == multiset(xs)
    ensures answer == SortBy(before, xs)
  {
    SortKeepsElements(before, xs);
    SortSorts(before, xs);
    forall a, b | a in answer && b in answer && a != b ensures before(a, b) || before(b, a) {
      assert a in multiset(answer) && b in multiset(answer);
      assert a in xs && b in xs;
    }
    SortedIsUnique(before, answer, SortBy(before, xs));
  }

  lemma {:induction false} InsertAtEnd<T>(before: (T, T) -> bool, x: T, xs: seq<T>)
    requires forall i :: 0 <= i < |xs| ==> before(xs[i], x)
    ensures Insert(before, x, xs) == xs + [x]
  {
    if xs == [] {
    } else {
      InsertAtEnd(before, x, xs[1..]);
    }
  }

  lemma {:induction false} ReverseAt<T>(xs: seq<T>)
    ensures |Reverse(xs)| == |xs| && forall i :: 0 <= i < |xs| ==> Reverse(xs)[i] == xs[|xs| - 1 - i]
  {
    if xs == [] {
    } else {
      ReverseAt(xs[1..]);
    }
  }

  lemma {:induction false} SortOfDescending<T>(before: (T, T) -> bool, xs: seq<T>)
    requires Descending(before, xs)
    ensures SortBy(before, xs) == Reverse(xs)
  {
    if xs == [] {
    } else {
      SortOfDescending(before, xs[1..]);
      ReverseAt(xs[1..]);
      InsertAtEnd(before, xs[0], Reverse(xs[1..]));
    }
  }

  lemma PairDescends<T>(before: (T, T) -> bool, xs: seq<T>, i: nat, j: nat)
    requires Decides(before, xs) && i < j < |xs| && xs[i] != xs[j]
    requires |Reverse(xs)| == |xs| && Reverse(xs)[|xs| - 1 - i] == xs[i] && Reverse(xs)[|xs| - 1 - j] == xs[j]
    requires Sorted(before, Reverse(xs))
    ensures before(xs[j], xs[i])
  {
    assert xs[i] in xs && xs[j] in xs;
  }

  lemma SortedReverseDescends<T>(before: (T, T) -> bool, xs: seq<T>)
    requires Decides(before, xs) && Sorted(before, Reverse(xs))
    requires forall i, j :: 0 <= i < j < |xs| ==> xs[i] != xs[j]
    ensures Descending(before, xs)
  {
    forall i, j | 0 <= i < j < |xs| ensures before(xs[j], xs[i]) {
      ReverseAt(xs);
      PairDescends(before, xs, i, j);
    }
  }

  /** Sorting reverses a sequence without ties exactly when each element comes before all those to its left. */
  lemma SortReversesExactly<T(!new)>(before: (T, T) -> bool, xs: seq<T>)
    requires WeakOrder(before) && Decides(before, xs)
    requires forall i, j :: 0 <= i < j < |xs| ==> xs[i] != xs[j]
    ensures SortBy(before, xs) == Reverse(xs) <==> Descending(before, xs)
  {
    if Descending(before, xs) {
      SortOfDescending(before, xs);
    }
    if SortBy(before, xs) == Reverse(xs) {
      SortSorts(before, xs);
      SortedReverseDescends(before, xs);
    }
  }

  lemma TakeOfReverse<T>(xs: seq<T>, n: nat)
    ensures Take(Reverse(xs), n) == Reverse(LastN(xs, n))
  {
    ReverseAt(xs);
    ReverseAt(LastN(xs, n));
  }

  // Encoded columns: sorting, limiting and decoding through an order-preserving encoder.

  function Map<T, U>(f: T --> U, xs: seq<T>): (ys: seq<U>)
    requires forall i :: 0 <= i < |xs| ==> f.requires(xs[i])
    ensures |ys| == |xs| && forall i :: 0 <= i < |xs| ==> ys[i] == f(xs[i])
  {
    if xs == [] then [] else [f(xs[0])] + Map(f, xs[1..])
  }

  lemma {:induction false} MapSnoc<T, U>(f: T --> U, xs: seq<T>, x: T)
    requires f.requires(x) && forall i :: 0 <= i < |xs| ==> f.requires(xs[i])
    ensures Map(f, xs + [x]) == Map(f, xs) + [f(x)]
  {
    if xs == [] {
    } else {
      MapSnoc(f, xs[1..], x);
      assert (xs + [x])[0] == xs[0] && (xs + [x])[1..] == xs[1..] + [x];
    }
  }

  /** The first decoding error, or all the values. */
  function DecodeAll<T, U, E>(g: U -> Result<T, E>, ys: seq<U>): Result<seq<T>, E> {
    if ys == [] then Success([])
    else
      var first :- g(ys[0]);
      var rest :- DecodeAll(g, ys[1..]);
      Success([first] + rest)
  }

  lemma {:induction false} InsertMap<T, U>(f: T --> U, before: (T, T) -> bool, before': (U, U) -> bool, x: T,
                                           xs: seq<T>)
    requires f.requires(x) && forall i :: 0 <= i < |xs| ==> f.requires(xs[i])
    requires forall i :: 0 <= i < |xs| ==> (before'(f(xs[i]), f(x)) <==> before(xs[i], x))
    ensures forall i :: 0 <= i < |Insert(before, x, xs)| ==> f.requires(Insert(before, x, xs)[i])
    ensures Insert(before', f(x), Map(f, xs)) == Map(f, Insert(before, x, xs))
  {
    if xs == [] || !before(xs[0], x) {
    } else {
      assert Map(f, xs)[1..] == Map(f, xs[1..]);
      InsertMap(f, before, before', x, xs[1..]);
    }
  }

  /** Sorting encoded values by the encoded order is encoding the sorted values. */
  lemma {:induction false} SortMap<T, U>(f: T --> U, before: (T, T) -> bool, before': (U, U) -> bool, xs: seq<T>)
    requires forall i :: 0 <= i < |xs| ==> f.requires(xs[i])
    requires forall a, b :: a in xs && b in xs ==> (before'(f(a), f(b)) <==> before(a, b))
    ensures forall i :: 0 <= i < |SortBy(before, xs)| ==> f.requires(SortBy(before, xs)[i])
    ensures SortBy(before', Map(f, xs)) == Map(f, SortBy(before, xs))
  {
    if xs == [] {
    } else {
      SortMap(f, before, before', xs[1..]);
      var sorted := SortBy(before, xs[1..]);
      SortKeepsElements(before, xs[1..]);
      forall i | 0 <= i < |sorted| ensures before'(f(sorted[i]), f(xs[0])) <==> before(sorted[i], xs[0]) {
        assert sorted[i] in multiset(xs[1..]);
        assert sorted[i] in xs;
      }
      InsertMap(f, before, before', xs[0], sorted);
      assert Map(f, xs)[1..] == Map(f, xs[1..]);
    }
  }

  lemma TakeMap<T, U>(f: T --> U, xs: seq<T>, n: nat)
    requires forall i :: 0 <= i < |xs| ==> f.requires(xs[i])
    ensures forall i :: 0 <= i < |Take(xs, n)| ==> f.requires(Take(xs, n)[i])
    ensures Take(Map(f, xs), n) == Map(f, Take(xs, n))
  {
  }

  lemma {:induction false} DecodeMap<T, U, E>(f: T --> U, g: U -> Result<T, E>, xs: seq<T>)
    requires forall i :: 0 <= i < |xs| ==> f.requires(xs[i]) && g(f(xs[i])) == Success(xs[i])
    ensures DecodeAll(g, Map(f, xs)) == Success(xs)
  {
    if xs == [] {
    } else {
      DecodeMap(f, g, xs[1..]);
      assert Map(f, xs)[1..] == Map(f, xs[1..]);
      assert [xs[0]] + xs[1..] == xs;
    }
  }
}
