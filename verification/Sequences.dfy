/** Sequence and set vocabulary shared by the modules of this project. */
module Sequences {

  function Init<T>(s: seq<T>): seq<T>
    requires s != []
  {
    s[..|s| - 1]
  }

  function Last<T>(s: seq<T>): T
    requires s != []
  {
    s[|s| - 1]
  }

  predicate Distinct<T(==)>(s: seq<T>) {
    forall i, j :: 0 <= i < j < |s| ==> s[i] != s[j]
  }

  function Flatten<T>(parts: seq<seq<T>>): seq<T> {
    if parts == [] then [] else Flatten(Init(parts)) + Last(parts)
  }

  lemma {:induction false} FlattenAppend<T>(parts: seq<seq<T>>, part: seq<T>)
    ensures Flatten(parts + [part]) == Flatten(parts) + part
  {
    assert Init(parts + [part]) == parts;
  }

  lemma {:induction false} FlattenMember<T>(parts: seq<seq<T>>, x: T)
    ensures x in Flatten(parts) <==> exists a :: 0 <= a < |parts| && x in parts[a]
  {
    if parts == [] {
    } else {
      FlattenMember(Init(parts), x);
      if a: int :| 0 <= a < |parts| && x in parts[a] {
        assert a < |parts| - 1 ==> x in Init(parts)[a];
      }
    }
  }

  ghost predicate Disjoint<T>(x: seq<T>, y: seq<T>) {
    forall i, j :: 0 <= i < |x| && 0 <= j < |y| ==> x[i] != y[j]
  }

  lemma {:induction false} ConcatDistinct<T>(x: seq<T>, y: seq<T>)
    ensures Distinct(x + y) <==> Distinct(x) && Distinct(y) && Disjoint(x, y)
  {
    var s := x + y;
    if Distinct(s) {
      forall i, j | 0 <= i < j < |x| ensures x[i] != x[j] {
        assert s[i] != s[j];
      }
      forall i, j | 0 <= i < j < |y| ensures y[i] != y[j] {
        assert s[|x| + i] != s[|x| + j];
      }
      forall i, j | 0 <= i < |x| && 0 <= j < |y| ensures x[i] != y[j] {
        assert s[i] != s[|x| + j];
      }
    }
  }

  lemma {:induction false} DisjointFromFlatten<T>(parts: seq<seq<T>>, y: seq<T>)
    ensures Disjoint(Flatten(parts), y) <==> forall a :: 0 <= a < |parts| ==> Disjoint(parts[a], y)
  {
    hide Flatten;
    if forall a :: 0 <= a < |parts| ==> Disjoint(parts[a], y) {
      forall i, j | 0 <= i < |Flatten(parts)| && 0 <= j < |y| ensures Flatten(parts)[i] != y[j] {
        FlattenMember(parts, Flatten(parts)[i]);
      }
    } else {
      var a, i, j :| 0 <= a < |parts| && 0 <= i < |parts[a]| && 0 <= j < |y| && parts[a][i] == y[j];
      FlattenMember(parts, y[j]);
      assert y[j] in Flatten(parts);
    }
  }

  /** All parts are free of repetitions, and no two of them share an element. */
  ghost predicate PartsDistinct<T>(parts: seq<seq<T>>) {
    && (forall a :: 0 <= a < |parts| ==> Distinct(parts[a]))
    && forall a, b :: 0 <= a < b < |parts| ==> Disjoint(parts[a], parts[b])
  }

  lemma PartsDistinctAppend<T>(front: seq<seq<T>>, last: seq<T>)
    ensures PartsDistinct(front + [last])
       <==> PartsDistinct(front) && Distinct(last) && forall a :: 0 <= a < |front| ==> Disjoint(front[a], last)
  {
    hide Distinct, Disjoint;
    var parts := front + [last];
    assert parts[|front|] == last && forall a :: 0 <= a < |front| ==> parts[a] == front[a];
  }

  lemma {:induction false} FlattenDistinctAppend<T>(front: seq<seq<T>>, last: seq<T>)
    requires Distinct(Flatten(front)) <==> PartsDistinct(front)
    ensures Distinct(Flatten(front + [last])) <==> PartsDistinct(front + [last])
  {
    hide Distinct, Disjoint, Flatten, PartsDistinct;
    FlattenAppend(front, last);
    ConcatDistinct(Flatten(front), last);
    DisjointFromFlatten(front, last);
    PartsDistinctAppend(front, last);
  }

  /** A concatenation repeats nothing exactly when no part does and no two parts share. */
  lemma {:induction false} FlattenDistinct<T>(parts: seq<seq<T>>)
    ensures Distinct(Flatten(parts)) <==> PartsDistinct(parts)
    decreases |parts|
  {
    if parts == [] {
    } else {
      FlattenDistinct(Init(parts));
      assert parts == Init(parts) + [Last(parts)];
      FlattenDistinctAppend(Init(parts), Last(parts));
    }
  }

  lemma TwiceInMultiset<T>(s: seq<T>, i: nat, j: nat)
    requires i < j < |s|
    ensures s[i] == s[j] ==> multiset(s)[s[i]] >= 2
  {
    assert s == s[..i] + [s[i]] + s[i + 1..j] + [s[j]] + s[j + 1..];
  }

  lemma OnceInMultiset<T>(s: seq<T>, x: T)
    requires x in s && Distinct(s)
    ensures multiset(s)[x] == 1
  {
    var i :| 0 <= i < |s| && s[i] == x;
    assert s == s[..i] + [x] + s[i + 1..];
    assert x !in s[..i] && x !in s[i + 1..];
  }

  /** Two lists without repetitions and with the same members are permutations of each other. */
  lemma SameElements<T(!new)>(a: seq<T>, b: seq<T>)
    requires Distinct(a) && Distinct(b) && forall x :: x in a <==> x in b
    ensures multiset(a) == multiset(b)
  {
    hide Distinct;
    forall x ensures multiset(a)[x] == multiset(b)[x] {
      if x in a {
        OnceInMultiset(a, x);
        OnceInMultiset(b, x);
      }
    }
  }

  lemma SubsetSize<T>(small: set<T>, large: set<T>)
    requires small <= large
    ensures |small| <= |large|
  {
    assert large == small + (large - small);
  }

  lemma SameMembers<T>(a: seq<T>, b: seq<T>, x: T)
    requires multiset(a) == multiset(b) && x in a
    ensures x in b
  {
    assert x in multiset(b);
  }

  lemma RemoveFromMultiset<T>(s: seq<T>, j: nat)
    requires j < |s|
    ensures multiset(s[..j] + s[j + 1..]) == multiset(s) - multiset{s[j]}
  {
    assert s == s[..j] + [s[j]] + s[j + 1..];
  }

  lemma RemoveHead<T>(s: seq<T>)
    requires s != []
    ensures multiset(s[1..]) == multiset(s) - multiset{s[0]} && s[0] in multiset(s)
  {
    assert s == [s[0]] + s[1..];
  }

  lemma RestoreOne<T>(x: multiset<T>, y: multiset<T>, e: T)
    requires e in x && e in y && x - multiset{e} == y - multiset{e}
    ensures x == y
  {
    assert x == (x - multiset{e}) + multiset{e} && y == (y - multiset{e}) + multiset{e};
  }

  /** Two permutations of each other, without the head of the first. */
  lemma PermutedWithout<T>(a: seq<T>, b: seq<T>, j: nat)
    requires a != [] && j < |b| && b[j] == a[0] && multiset(a) == multiset(b)
    ensures multiset(a[1..]) == multiset(b[..j] + b[j + 1..])
  {
    RemoveHead(a);
    RemoveFromMultiset(b, j);
  }

  lemma RestoreHead<T>(a: seq<T>, b: seq<T>, j: nat)
    requires a != [] && j < |b| && b[j] == a[0] && multiset(a[1..]) == multiset(b[..j] + b[j + 1..])
    ensures multiset(a) == multiset(b)
  {
    RemoveHead(a);
    RemoveFromMultiset(b, j);
    RestoreOne(multiset(a), multiset(b), a[0]);
  }

  lemma PermutedMembers<T(!new)>(a: seq<T>, b: seq<T>)
    requires multiset(a) == multiset(b)
    ensures forall x :: x in a <==> x in b
  {
    forall x ensures x in a <==> x in b {
      assert x in a <==> x in multiset(a);
      assert x in b <==> x in multiset(b);
    }
  }

  lemma PermutedDistinct<T>(a: seq<T>, b: seq<T>)
    requires multiset(a) == multiset(b) && Distinct(a)
    ensures Distinct(b)
  {
    forall i, j | 0 <= i < j < |b| ensures b[i] != b[j] {
      TwiceInMultiset(b, i, j);
      SameMembers(b, a, b[i]);
      OnceInMultiset(a, b[i]);
    }
  }

  function Map<T, U>(s: seq<T>, f: T -> U): (r: seq<U>)
    ensures |r| == |s| && forall i :: 0 <= i < |s| ==> r[i] == f(s[i])
  {
    seq(|s|, i requires 0 <= i < |s| => f(s[i]))
  }

  lemma {:induction false} MapPermuted<T, U>(a: seq<T>, b: seq<T>, f: T -> U)
    requires multiset(a) == multiset(b)
    ensures multiset(Map(a, f)) == multiset(Map(b, f))
    decreases |a|
  {
    if a == [] {
      assert |multiset(b)| == 0;
    } else {
      SameMembers(a, b, a[0]);
      var j: nat :| j < |b| && b[j] == a[0];
      var rest := b[..j] + b[j + 1..];
      PermutedWithout(a, b, j);
      MapPermuted(a[1..], rest, f);
      assert Map(a, f)[1..] == Map(a[1..], f);
      assert Map(b, f)[..j] + Map(b, f)[j + 1..] == Map(rest, f);
      RestoreHead(Map(a, f), Map(b, f), j);
    }
  }

  /** A list without repetitions among the members of another of the same length has them all. */
  lemma DistinctFull<T>(a: seq<T>, b: seq<T>)
    requires Distinct(a) && |a| == |b| && forall x :: x in a ==> x in b
    ensures multiset(a) == multiset(b)
  {
    forall x ensures multiset(a)[x] <= multiset(b)[x] {
      if x in a {
        OnceInMultiset(a, x);
        assert x in multiset(b);
      }
    }
    assert multiset(b) == multiset(a) + (multiset(b) - multiset(a));
  }
}
