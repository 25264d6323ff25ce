/** Folds over lists, and when they do not depend on the order of the list. */
module Folds {
  function Fold<A, B>(op: (A, B) -> B, unit: B, s: seq<A>): B {
    if s == [] then unit else op(s[0], Fold(op, unit, s[1..]))
  }

  ghost predicate Swaps<A(!new), B(!new)>(op: (A, B) -> B) {
    forall x, y, b :: op(x, op(y, b)) == op(y, op(x, b))
  }

  function Without<A>(s: seq<A>, i: nat): seq<A>
    requires i < |s|
  {
    s[..i] + s[i + 1..]
  }

  lemma {:induction false} FoldPull<A(!new), B(!new)>(op: (A, B) -> B, unit: B, s: seq<A>, i: nat)
    requires Swaps(op) && i < |s|
    ensures Fold(op, unit, s) == op(s[i], Fold(op, unit, Without(s, i)))
  {
    if i == 0 {
      assert Without(s, i) == s[1..];
    } else {
      FoldPull(op, unit, s[1..], i - 1);
      assert Without(s, i)[1..] == Without(s[1..], i - 1);
    }
  }

  lemma WithoutOne<A>(s: seq<A>, i: nat)
    requires i < |s|
    ensures multiset(Without(s, i)) == multiset(s) - multiset{s[i]}
  {
    assert s == s[..i] + [s[i]] + s[i + 1..];
  }

  /** A fold whose steps commute does not see the order. */
  lemma {:induction false} FoldForgetsOrder<A(!new), B(!new)>(op: (A, B) -> B, unit: B, s: seq<A>, t: seq<A>)
    requires Swaps(op) && multiset(s) == multiset(t)
    ensures Fold(op, unit, s) == Fold(op, unit, t)
    decreases s
  {
    if s == [] {
      assert |multiset(t)| == |t|;
    } else {
      assert s[0] in multiset(t);
      var i :| 0 <= i < |t| && t[i] == s[0];
      WithoutOne(s, 0);
      WithoutOne(t, i);
      assert Without(s, 0) == s[1..];
      FoldForgetsOrder(op, unit, s[1..], Without(t, i));
      FoldPull(op, unit, t, i);
    }
  }

  lemma FoldSnoc<A(!new), B(!new)>(op: (A, B) -> B, unit: B, s: seq<A>, x: A)
    requires Swaps(op)
    ensures Fold(op, unit, s + [x]) == op(x, Fold(op, unit, s))
  {
    FoldPull(op, unit, s + [x], |s|);
    assert Without(s + [x], |s|) == s;
  }
}
