/** A stable sort by a total order, standing for the `sorted` calls of the repository. */
module Sorting {

  import opened Sequences

  /** Total and transitive; different elements may tie. */
  ghost predicate TotalOrder<T(!new)>(le: (T, T) -> bool) {
    && (forall a, b :: le(a, b) || le(b, a))
    && forall a, b, c :: le(a, b) && le(b, c) ==> le(a, c)
  }

  ghost predicate Sorted<T>(s: seq<T>, le: (T, T) -> bool) {
    forall i, j :: 0 <= i < j < |s| ==> le(s[i], s[j])
  }

  function Insert<T>(x: T, s: seq<T>, le: (T, T) -> bool): (r: seq<T>)
    ensures |r| == |s| + 1
    ensures multiset(r) == multiset{x} + multiset(s)
  {
    if s == [] || le(x, s[0]) then
      [x] + s
    else
      assert multiset(s) == multiset{s[0]} + multiset(s[1..]) by { assert s == [s[0]] + s[1..]; }
      [s[0]] + Insert(x, s[1..], le)
  }

  function Sort<T>(s: seq<T>, le: (T, T) -> bool): (r: seq<T>)
    ensures |r| == |s|
    ensures multiset(r) == multiset(s)
  {
    if s == [] then []
    else
      assert s == [s[0]] + s[1..];
      Insert(s[0], Sort(s[1..], le), le)
  }

  lemma {:induction false} InsertSorted<T(!new)>(x: T, s: seq<T>, le: (T, T) -> bool)
    requires TotalOrder(le) && Sorted(s, le)
    ensures Sorted(Insert(x, s, le), le)
    decreases |s|
  {
    if s == [] || le(x, s[0]) {
    } else {
      var rest := Insert(x, s[1..], le);
      InsertSorted(x, s[1..], le);
      forall j | 0 <= j < |rest| ensures le(s[0], rest[j]) {
        assert rest[j] in multiset(rest);
        assert rest[j] == x || rest[j] in s[1..];
      }
    }
  }

  lemma {:induction false} SortIsSorted<T(!new)>(s: seq<T>, le: (T, T) -> bool)
    requires TotalOrder(le)
    ensures Sorted(Sort(s, le), le)
    decreases |s|
  {
    if s == [] {
    } else {
      SortIsSorted(s[1..], le);
      InsertSorted(s[0], Sort(s[1..], le), le);
    }
  }

  /** Sorting leaves a sorted list alone. */
  lemma {:induction false} SortKeepsSorted<T>(s: seq<T>, le: (T, T) -> bool)
    requires Sorted(s, le)
    ensures Sort(s, le) == s
    decreases |s|
  {
    if s == [] {
    } else {
      SortKeepsSorted(s[1..], le);
      assert s == [s[0]] + s[1..];
    }
  }

  lemma {:induction false} RemoveKeepsSorted<T>(s: seq<T>, j: nat, le: (T, T) -> bool)
    requires j < |s| && Sorted(s, le)
    ensures Sorted(s[..j] + s[j + 1..], le)
  {
  }

  lemma TailSorted<T>(s: seq<T>, le: (T, T) -> bool)
    requires s != [] && Sorted(s, le)
    ensures Sorted(s[1..], le)
  {
  }

  /** Everything that a sorted list puts before an element that could be first ties with it. */
  lemma FrontTies<T(!new)>(a: seq<T>, b: seq<T>, le: (T, T) -> bool, i: nat, j: nat)
    requires TotalOrder(le) && Sorted(a, le) && Sorted(b, le) && multiset(a) == multiset(b)
    requires i <= j < |b| && a != [] && b[j] == a[0]
    ensures b[i] in a && le(a[0], b[i]) && le(b[i], a[0])
  {
    assert b[i] in multiset(b);
    assert b[i] in a;
  }

  ghost predicate SameImages<T, U>(a: seq<T>, b: seq<T>, f: T -> U) {
    |a| == |b| && forall i :: 0 <= i < |a| ==> f(a[i]) == f(b[i])
  }

  lemma ImagesWithHead<T, U>(a: seq<T>, b: seq<T>, j: nat, f: T -> U)
    requires a != [] && j < |b| && SameImages(a[1..], b[..j] + b[j + 1..], f)
    requires forall i :: 0 <= i <= j ==> f(b[i]) == f(a[0])
    ensures SameImages(a, b, f)
  {
    var tail, rest := a[1..], b[..j] + b[j + 1..];
    assert forall i :: 0 < i < |a| ==> a[i] == tail[i - 1];
    forall i | 0 < i < |a| ensures f(a[i]) == f(b[i]) {
      assert f(tail[i - 1]) == f(rest[i - 1]);
      assert rest[i - 1] == if i <= j then b[i - 1] else b[i];
    }
  }

  lemma NoImages<T, U>(a: seq<T>, b: seq<T>, f: T -> U)
    requires a == [] && multiset(a) == multiset(b)
    ensures SameImages(a, b, f)
  {
    assert |multiset(b)| == 0;
  }

  /** Tied elements of the list have the same image. */
  ghost predicate TiesAgree<T(!new), U>(a: seq<T>, le: (T, T) -> bool, f: T -> U) {
    forall x, y :: x in a && y in a && le(x, y) && le(y, x) ==> f(x) == f(y)
  }

  lemma TiesAgreeTail<T(!new), U>(a: seq<T>, le: (T, T) -> bool, f: T -> U)
    requires a != [] && TiesAgree(a, le, f)
    ensures TiesAgree(a[1..], le, f)
  {
    forall x, y | x in a[1..] && y in a[1..] && le(x, y) && le(y, x) ensures f(x) == f(y) {
      assert x in a && y in a;
    }
  }

  /** Both lists without the first element of the first. */
  lemma RemoveBoth<T(!new), U>(a: seq<T>, b: seq<T>, j: nat, le: (T, T) -> bool, f: T -> U) returns (rest: seq<T>)
    requires Sorted(a, le) && Sorted(b, le) && multiset(a) == multiset(b) && TiesAgree(a, le, f)
    requires a != [] && j < |b| && b[j] == a[0]
    ensures rest == b[..j] + b[j + 1..]
    ensures Sorted(a[1..], le) && Sorted(rest, le) && multiset(a[1..]) == multiset(rest) && TiesAgree(a[1..], le, f)
  {
    hide Sorted, TiesAgree;
    rest := b[..j] + b[j + 1..];
    TiesAgreeTail(a, le, f);
    RemoveKeepsSorted(b, j, le);
    RemoveFromMultiset(b, j);
    RemoveHead(a);
    TailSorted(a, le);
  }

  /** Two sorted lists of the same elements agree in every property that tied elements share. */
  lemma {:induction false} SortedImages<T(!new), U>(a: seq<T>, b: seq<T>, le: (T, T) -> bool, f: T -> U)
    requires TotalOrder(le) && Sorted(a, le) && Sorted(b, le) && multiset(a) == multiset(b)
    requires TiesAgree(a, le, f)
    ensures SameImages(a, b, f)
    decreases |a|
  {
    hide TotalOrder, Sorted, SameImages;
    if a == [] {
      NoImages(a, b, f);
    } else {
      SameMembers(a, b, a[0]);
      var j: nat :| j < |b| && b[j] == a[0];
      var rest := RemoveBoth(a, b, j, le, f);
      SortedImages(a[1..], rest, le, f);
      forall i: nat | i <= j ensures f(b[i]) == f(a[0]) {
        FrontTies(a, b, le, i, j);
      }
      ImagesWithHead(a, b, j, f);
    }
  }

  /** The elements that satisfy `test`, in order. */
  function Filter<T>(s: seq<T>, test: T -> bool): seq<T> {
    if s == [] then [] else (if test(s[0]) then [s[0]] else []) + Filter(s[1..], test)
  }

  /** What a single element contributes to `Filter`. */
  function Kept<T>(x: T, test: T -> bool): seq<T> {
    if test(x) then [x] else []
  }

  lemma FilterCons<T>(x: T, s: seq<T>, test: T -> bool)
    ensures Filter([x] + s, test) == Kept(x, test) + Filter(s, test)
  {
    assert ([x] + s)[1..] == s;
  }

  lemma NotBothKept<T>(x: T, y: T, test: T -> bool, rest: seq<T>)
    requires !test(x) || !test(y)
    ensures Kept(y, test) + (Kept(x, test) + rest) == Kept(x, test) + (Kept(y, test) + rest)
  {
  }

  lemma {:induction false} InsertStable<T(!new)>(x: T, s: seq<T>, le: (T, T) -> bool, test: T -> bool)
    requires forall a, b :: test(a) && test(b) ==> le(a, b)
    ensures Filter(Insert(x, s, le), test) == Kept(x, test) + Filter(s, test)
    decreases |s|
  {
    hide Filter, Kept;
    if s == [] || le(x, s[0]) {
      FilterCons(x, s, test);
    } else {
      assert s == [s[0]] + s[1..];
      var rest := Insert(x, s[1..], le);
      InsertStable(x, s[1..], le, test);
      FilterCons(s[0], s[1..], test);
      FilterCons(s[0], rest, test);
      NotBothKept(x, s[0], test, Filter(s[1..], test));
    }
  }

  /** Tied elements keep their order. */
  lemma {:induction false} SortStable<T(!new)>(s: seq<T>, le: (T, T) -> bool, test: T -> bool)
    requires forall a, b :: test(a) && test(b) ==> le(a, b)
    ensures Filter(Sort(s, le), test) == Filter(s, test)
    decreases |s|
  {
    if s == [] {
    } else {
      SortStable(s[1..], le, test);
      InsertStable(s[0], Sort(s[1..], le), le, test);
    }
  }

  /** When no two different elements tie, there is one sorted permutation. */
  lemma {:induction false} SortUnique<T(!new)>(s: seq<T>, sorted: seq<T>, le: (T, T) -> bool)
    requires TotalOrder(le) && Sorted(sorted, le) && multiset(s) == multiset(sorted)
    requires forall x, y :: x in s && y in s && le(x, y) && le(y, x) ==> x == y
    ensures Sort(s, le) == sorted
  {
    hide TotalOrder, Sorted;
    SortIsSorted(s, le);
    PermutedMembers(s, Sort(s, le));
    SortedImages(Sort(s, le), sorted, le, (x: T) => x);
    assert forall i :: 0 <= i < |sorted| ==> Sort(s, le)[i] == sorted[i];
  }
}
