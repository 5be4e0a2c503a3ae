/** JavaScript's `Array.sort` with a comparator: a stable sort. */
module Sorting {

  ghost predicate TotalPreorder<T(!new)>(leq: (T, T) -> bool) {
    && (forall x, y :: leq(x, y) || leq(y, x))
    && (forall x, y, z :: leq(x, y) && leq(y, z) ==> leq(x, z))
  }

  ghost predicate SortedBy<T>(leq: (T, T) -> bool, xs: seq<T>) {
    forall i, j | 0 <= i < j < |xs| :: leq(xs[i], xs[j])
  }

  function Insert<T>(leq: (T, T) -> bool, x: T, xs: seq<T>): seq<T> {
    if xs == [] || leq(x, xs[0]) then [x] + xs else [xs[0]] + Insert(leq, x, xs[1..])
  }

  function Sort<T>(leq: (T, T) -> bool, xs: seq<T>): seq<T> {
    if xs == [] then [] else Insert(leq, xs[0], Sort(leq, xs[1..]))
  }

  function Filter<T>(p: T -> bool, xs: seq<T>): seq<T> {
    if xs == [] then [] else (if p(xs[0]) then [xs[0]] else []) + Filter(p, xs[1..])
  }

  lemma {:induction false} InsertPermutes<T>(leq: (T, T) -> bool, x: T, xs: seq<T>)
    ensures multiset(Insert(leq, x, xs)) == multiset([x] + xs)
  {
    if xs != [] && !leq(x, xs[0]) {
      InsertPermutes(leq, x, xs[1..]);
      assert xs == [xs[0]] + xs[1..];
    }
  }

  lemma {:induction false} SortPermutes<T>(leq: (T, T) -> bool, xs: seq<T>)
    ensures multiset(Sort(leq, xs)) == multiset(xs)
  {
    if xs != [] {
      SortPermutes(leq, xs[1..]);
      InsertPermutes(leq, xs[0], Sort(leq, xs[1..]));
      assert xs == [xs[0]] + xs[1..];
    }
  }

  lemma SortMembers<T>(leq: (T, T) -> bool, xs: seq<T>)
    ensures |Sort(leq, xs)| == |xs|
    ensures forall x :: x in Sort(leq, xs) <==> x in xs
  {
    SortPermutes(leq, xs);
    assert |multiset(Sort(leq, xs))| == |multiset(xs)|;
    forall x ensures x in Sort(leq, xs) <==> x in xs {
      assert x in Sort(leq, xs) <==> x in multiset(Sort(leq, xs));
    }
  }

  lemma {:induction false} InsertSorts<T(!new)>(leq: (T, T) -> bool, x: T, xs: seq<T>)
    requires TotalPreorder(leq) && SortedBy(leq, xs)
    ensures SortedBy(leq, Insert(leq, x, xs))
  {
    if xs == [] {
    } else if leq(x, xs[0]) {
      forall j | 0 <= j < |xs| ensures leq(x, xs[j]) {
        assert leq(xs[0], xs[j]);
      }
    } else {
      var rest := Insert(leq, x, xs[1..]);
      InsertSorts(leq, x, xs[1..]);
      InsertPermutes(leq, x, xs[1..]);
      forall j | 0 <= j < |rest| ensures leq(xs[0], rest[j]) {
        assert rest[j] in multiset(rest);
        assert rest[j] == x || rest[j] in xs[1..];
      }
    }
  }

  /** The result is in order. */
  lemma {:induction false} SortSorts<T(!new)>(leq: (T, T) -> bool, xs: seq<T>)
    requires TotalPreorder(leq)
    ensures SortedBy(leq, Sort(leq, xs))
  {
    if xs != [] {
      SortSorts(leq, xs[1..]);
      InsertSorts(leq, xs[0], Sort(leq, xs[1..]));
    }
  }

  /** Sorting what is already in order changes nothing. */
  lemma {:induction false} SortOfSorted<T>(leq: (T, T) -> bool, xs: seq<T>)
    requires SortedBy(leq, xs)
    ensures Sort(leq, xs) == xs
  {
    if xs != [] {
      SortOfSorted(leq, xs[1..]);
      assert xs == [xs[0]] + xs[1..];
    }
  }

  lemma {:induction false} InsertFilter<T(!new)>(leq: (T, T) -> bool, p: T -> bool, x: T, xs: seq<T>)
    requires forall y, z :: p(y) && p(z) ==> leq(y, z)
    ensures Filter(p, Insert(leq, x, xs)) == Filter(p, [x] + xs)
  {
    assert ([x] + xs)[1..] == xs;
    if xs != [] && !leq(x, xs[0]) {
      InsertFilter(leq, p, x, xs[1..]);
      assert ([x] + xs[1..])[1..] == xs[1..];
    }
  }

  /** Elements that compare equal keep their order: the part of the result that
      satisfies `p`, where all such elements are level, is the same part of the input. */
  lemma {:induction false} SortIsStable<T(!new)>(leq: (T, T) -> bool, p: T -> bool, xs: seq<T>)
    requires forall y, z :: p(y) && p(z) ==> leq(y, z)
    ensures Filter(p, Sort(leq, xs)) == Filter(p, xs)
  {
    if xs != [] {
      SortIsStable(leq, p, xs[1..]);
      var rest := Sort(leq, xs[1..]);
      InsertFilter(leq, p, xs[0], rest);
      assert ([xs[0]] + rest)[1..] == rest;
    }
  }
}
