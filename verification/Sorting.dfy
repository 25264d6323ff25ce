/**
 Stable sorting, as sorted() and list.sort() promise it: the result is ordered,
 and elements that compare equal keep their relative order.  Those two facts
 determine the result (SortedUnique).
 */
module Sorting {
  ghost predicate TotalPreorder<T(!new)>(leq: (T, T) -> bool) {
    && (forall a, b :: leq(a, b) || leq(b, a))
    && (forall a, b, c :: leq(a, b) && leq(b, c) ==> leq(a, c))
  }

  predicate Equivalent<T>(leq: (T, T) -> bool, a: T, b: T) {
    leq(a, b) && leq(b, a)
  }

  ghost predicate Sorted<T>(leq: (T, T) -> bool, s: seq<T>) {
    forall i, j :: 0 <= i < j < |s| ==> leq(s[i], s[j])
  }

  /** The elements of s that compare equal to z, in order. */
  function ClassOf<T>(leq: (T, T) -> bool, z: T, s: seq<T>): seq<T> {
    if s == [] then []
    else if Equivalent(leq, s[0], z) then [s[0]] + ClassOf(leq, z, s[1..])
    else ClassOf(leq, z, s[1..])
  }

  function Insert<T>(leq: (T, T) -> bool, x: T, s: seq<T>): seq<T> {
    if s == [] then [x]
    else if leq(x, s[0]) then [x] + s
    else [s[0]] + Insert(leq, x, s[1..])
  }

  function StableSort<T>(leq: (T, T) -> bool, s: seq<T>): seq<T> {
    if s == [] then [] else Insert(leq, s[0], StableSort(leq, s[1..]))
  }

  // ---------------------------------------------------------------------
  // Sorted, a permutation, and stable
  // ---------------------------------------------------------------------

  lemma {:induction false} InsertPermutes<T>(leq: (T, T) -> bool, x: T, s: seq<T>)
    ensures multiset(Insert(leq, x, s)) == multiset{x} + multiset(s)
  {
    if s == [] {
    } else if leq(x, s[0]) {
    } else {
      InsertPermutes(leq, x, s[1..]);
      assert s == [s[0]] + s[1..];
    }
  }

  lemma {:induction false} SortPermutes<T>(leq: (T, T) -> bool, s: seq<T>)
    ensures multiset(StableSort(leq, s)) == multiset(s)
    ensures |StableSort(leq, s)| == |s|
  {
    if s != [] {
      SortPermutes(leq, s[1..]);
      InsertPermutes(leq, s[0], StableSort(leq, s[1..]));
      assert s == [s[0]] + s[1..];
    }
    assert |multiset(StableSort(leq, s))| == |StableSort(leq, s)|;
    assert |multiset(s)| == |s|;
  }

  lemma {:induction false} InsertSorted<T(!new)>(leq: (T, T) -> bool, x: T, s: seq<T>)
    requires TotalPreorder(leq) && Sorted(leq, s)
    ensures Sorted(leq, Insert(leq, x, s))
  {
    if s == [] {
    } else if leq(x, s[0]) {
      assert forall i :: 0 <= i < |s| ==> leq(x, s[i]);
    } else {
      var rest := Insert(leq, x, s[1..]);
      InsertSorted(leq, x, s[1..]);
      InsertPermutes(leq, x, s[1..]);
      forall i | 0 <= i < |rest| ensures leq(s[0], rest[i]) {
        assert rest[i] in multiset(rest);
        assert rest[i] == x || rest[i] in s[1..];
      }
    }
  }

  lemma {:induction false} SortSorted<T(!new)>(leq: (T, T) -> bool, s: seq<T>)
    requires TotalPreorder(leq)
    ensures Sorted(leq, StableSort(leq, s))
  {
    if s != [] {
      SortSorted(leq, s[1..]);
      InsertSorted(leq, s[0], StableSort(leq, s[1..]));
    }
  }

  /** Sorting commutes with picking out one class of any other order. */
  lemma {:induction false} InsertClass<T(!new)>(leq: (T, T) -> bool, cls: (T, T) -> bool, z: T, x: T, s: seq<T>)
    requires TotalPreorder(leq) && Sorted(leq, s)
    ensures ClassOf(cls, z, Insert(leq, x, s)) ==
      if Equivalent(cls, x, z) then Insert(leq, x, ClassOf(cls, z, s)) else ClassOf(cls, z, s)
  {
    if s == [] {
      assert Insert(leq, x, s)[1..] == [];
    } else if leq(x, s[0]) {
      assert ([x] + s)[1..] == s;
      if Equivalent(cls, x, z) {
        InsertFirst(leq, cls, z, x, s);
      }
    } else {
      InsertClass(leq, cls, z, x, s[1..]);
      assert Insert(leq, x, s)[1..] == Insert(leq, x, s[1..]);
    }
  }

  lemma {:induction false} InsertFirst<T(!new)>(leq: (T, T) -> bool, cls: (T, T) -> bool, z: T, x: T, s: seq<T>)
    requires forall i :: 0 <= i < |s| ==> leq(x, s[i])
    ensures Insert(leq, x, ClassOf(cls, z, s)) == [x] + ClassOf(cls, z, s)
  {
    if s != [] {
      InsertFirst(leq, cls, z, x, s[1..]);
    }
  }

  lemma {:induction false} SortClass<T(!new)>(leq: (T, T) -> bool, cls: (T, T) -> bool, z: T, s: seq<T>)
    requires TotalPreorder(leq)
    ensures ClassOf(cls, z, StableSort(leq, s)) == StableSort(leq, ClassOf(cls, z, s))
  {
    if s != [] {
      SortClass(leq, cls, z, s[1..]);
      SortSorted(leq, s[1..]);
      InsertClass(leq, cls, z, s[0], StableSort(leq, s[1..]));
      var c := ClassOf(cls, z, s[1..]);
      assert Equivalent(cls, s[0], z) ==> ClassOf(cls, z, s)[1..] == c;
    }
  }

  /** A sorted list is left as it is. */
  lemma {:induction false} SortOfSorted<T(!new)>(leq: (T, T) -> bool, s: seq<T>)
    requires Sorted(leq, s)
    ensures StableSort(leq, s) == s
  {
    if s != [] {
      SortOfSorted(leq, s[1..]);
      assert s == [s[0]] + s[1..];
    }
  }

  lemma {:induction false} ClassElements<T(!new)>(leq: (T, T) -> bool, z: T, s: seq<T>)
    ensures forall x :: x in ClassOf(leq, z, s) <==> x in s && Equivalent(leq, x, z)
  {
    if s != [] {
      ClassElements(leq, z, s[1..]);
    }
  }

  /** Stability: each class of equal elements keeps its order. */
  lemma SortStable<T(!new)>(leq: (T, T) -> bool, z: T, s: seq<T>)
    requires TotalPreorder(leq)
    ensures ClassOf(leq, z, StableSort(leq, s)) == ClassOf(leq, z, s)
  {
    var c := ClassOf(leq, z, s);
    ClassElements(leq, z, s);
    forall i, j | 0 <= i < j < |c| ensures leq(c[i], c[j]) {
      assert c[i] in c && c[j] in c;
    }
    SortClass(leq, leq, z, s);
    SortOfSorted(leq, c);
  }

  /** x occurs in s, and no y before its first occurrence. */
  ghost predicate SeenFirst<T>(s: seq<T>, x: T, y: T) {
    exists i :: 0 <= i < |s| && s[i] == x && y !in s[..i]
  }

  lemma FirstThen<T>(s: seq<T>, x: T, y: T)
    requires SeenFirst(s, x, y) && y in s && x != y
    ensures exists a, b :: 0 <= a < b < |s| && s[a] == x && s[b] == y
  {
    var a :| 0 <= a < |s| && s[a] == x && y !in s[..a];
    var b :| 0 <= b < |s| && s[b] == y;
    assert forall c :: 0 <= c < a ==> s[..a][c] == s[c];
  }

  lemma SeenFirstCons<T>(h: T, t: seq<T>, x: T, y: T)
    ensures SeenFirst([h] + t, x, y) <==> h == x || (h != y && SeenFirst(t, x, y))
  {
    var s := [h] + t;
    if SeenFirst(t, x, y) {
      var i :| 0 <= i < |t| && t[i] == x && y !in t[..i];
      assert s[i + 1] == x && s[..i + 1] == [h] + t[..i];
    }
    if h == x {
      assert s[0] == x && s[..0] == [];
    } else if SeenFirst(s, x, y) {
      var i :| 0 <= i < |s| && s[i] == x && y !in s[..i];
      assert t[i - 1] == x && s[..i] == [h] + t[..i - 1];
    }
  }

  lemma {:induction false} ClassSeenFirst<T(!new)>(leq: (T, T) -> bool, z: T, s: seq<T>, x: T, y: T)
    requires Equivalent(leq, x, z) && Equivalent(leq, y, z)
    ensures SeenFirst(ClassOf(leq, z, s), x, y) <==> SeenFirst(s, x, y)
  {
    hide SeenFirst, Equivalent;
    if s != [] {
      ClassSeenFirst(leq, z, s[1..], x, y);
      assert s == [s[0]] + s[1..];
      SeenFirstCons(s[0], s[1..], x, y);
      SeenFirstCons(s[0], ClassOf(leq, z, s[1..]), x, y);
    } else {
      assert ClassOf(leq, z, s) == s;
    }
  }

  /** Of two elements that compare equal, sorting leaves that one first which came first. */
  lemma SortKeepsFirst<T(!new)>(leq: (T, T) -> bool, s: seq<T>, x: T, y: T)
    requires TotalPreorder(leq) && Equivalent(leq, x, y)
    ensures SeenFirst(StableSort(leq, s), x, y) <==> SeenFirst(s, x, y)
  {
    hide SeenFirst;
    SortStable(leq, y, s);
    ClassSeenFirst(leq, y, s, x, y);
    ClassSeenFirst(leq, y, StableSort(leq, s), x, y);
  }

  /** The order and the classes determine the list: a stable sort has one result. */
  lemma {:induction false} SortedUnique<T(!new)>(leq: (T, T) -> bool, a: seq<T>, b: seq<T>)
    requires TotalPreorder(leq) && Sorted(leq, a) && Sorted(leq, b)
    requires |a| == |b| && forall z :: ClassOf(leq, z, a) == ClassOf(leq, z, b)
    ensures a == b
    decreases |a|
  {
    if a != [] {
      var x := a[0];
      ClassElements(leq, x, a);
      ClassElements(leq, x, b);
      assert x in ClassOf(leq, x, b);
      var y := b[0];
      ClassElements(leq, y, b);
      ClassElements(leq, y, a);
      assert y in ClassOf(leq, y, a);
      assert leq(x, y) && leq(y, x);
      assert ClassOf(leq, x, a)[0] == x && ClassOf(leq, x, b)[0] == y;
      forall z ensures ClassOf(leq, z, a[1..]) == ClassOf(leq, z, b[1..]) {
        assert ClassOf(leq, z, a) == ClassOf(leq, z, b);
        if Equivalent(leq, x, z) {
          assert ClassOf(leq, z, a)[1..] == ClassOf(leq, z, a[1..]);
          assert ClassOf(leq, z, b)[1..] == ClassOf(leq, z, b[1..]);
        }
      }
      SortedUnique(leq, a[1..], b[1..]);
      assert a == [x] + a[1..] && b == [y] + b[1..];
    }
  }

  /** Elements that compare equal are equal. */
  ghost predicate Antisymmetric<T(!new)>(leq: (T, T) -> bool, s: seq<T>) {
    forall x, y :: x in s && y in s && leq(x, y) && leq(y, x) ==> x == y
  }

  lemma SameHead<T(!new)>(leq: (T, T) -> bool, a: seq<T>, b: seq<T>)
    requires TotalPreorder(leq) && Antisymmetric(leq, a)
    requires Sorted(leq, a) && Sorted(leq, b) && multiset(a) == multiset(b) && a != []
    ensures b != [] && a[0] == b[0]
    ensures multiset(a[1..]) == multiset(b[1..])
  {
    assert a[0] in multiset(b);
    assert b[0] in multiset(a);
    assert leq(a[0], b[0]) && leq(b[0], a[0]);
    assert a == [a[0]] + a[1..];
    assert b == [b[0]] + b[1..];
    assert multiset(a[1..]) == multiset(a) - multiset{a[0]};
    assert multiset(b[1..]) == multiset(b) - multiset{b[0]};
  }

  lemma {:induction false} SortedIsUnique<T(!new)>(leq: (T, T) -> bool, a: seq<T>, b: seq<T>)
    requires TotalPreorder(leq) && Antisymmetric(leq, a)
    requires Sorted(leq, a) && Sorted(leq, b) && multiset(a) == multiset(b)
    ensures a == b
  {
    if a == [] {
      assert |multiset(b)| == |b|;
    } else {
      SameHead(leq, a, b);
      SortedIsUnique(leq, a[1..], b[1..]);
      assert a == [a[0]] + a[1..] && b == [b[0]] + b[1..];
    }
  }

  /** When no two different elements compare equal, the input order does not matter. */
  lemma SortForgetsOrder<T(!new)>(leq: (T, T) -> bool, a: seq<T>, b: seq<T>)
    requires TotalPreorder(leq) && Antisymmetric(leq, a) && multiset(a) == multiset(b)
    ensures StableSort(leq, a) == StableSort(leq, b)
  {
    SortPermutes(leq, a);
    SortPermutes(leq, b);
    SortSorted(leq, a);
    SortSorted(leq, b);
    forall x | x in StableSort(leq, a) ensures x in a {
      assert x in multiset(StableSort(leq, a));
    }
    SortedIsUnique(leq, StableSort(leq, a), StableSort(leq, b));
  }
}
