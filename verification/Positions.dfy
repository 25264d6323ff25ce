/** Choosing the elements of a list by their positions, in order. */
module Positions {
  import opened Options

  /** at lists, in increasing order, the positions at which p holds. */
  ghost predicate Lists(at: seq<int>, p: int -> bool) {
    && (forall k, l :: 0 <= k < l < |at| ==> at[k] < at[l])
    && (forall k :: 0 <= k < |at| ==> p(at[k]))
    && (forall i :: p(i) ==> i in at)
  }

  /** One more position, after all others. */
  lemma ListsSnoc(at: seq<int>, p: int -> bool, q: int -> bool, n: int)
    requires Lists(at, p) && forall i :: p(i) ==> i < n
    requires forall i :: q(i) <==> p(i) || (i == n && q(n))
    ensures Lists(if q(n) then at + [n] else at, q)
  {
    forall k | 0 <= k < |at| ensures at[k] < n && q(at[k]) {
      assert p(at[k]);
    }
  }

  /** The position holds an element that f takes. */
  function Taken<T, U>(s: seq<T>, f: T -> Option<U>): int -> bool {
    i => 0 <= i < |s| && f(s[i]).Some?
  }

  /** Element by element, out is what f makes of s at these positions. */
  ghost predicate Follows<T, U>(out: seq<U>, s: seq<T>, f: T -> Option<U>, at: seq<int>) {
    |out| == |at| && forall k :: 0 <= k < |at| ==> 0 <= at[k] < |s| && f(s[at[k]]) == Some(out[k])
  }

  /** out is what f makes of the elements of s that it takes, in their order. */
  ghost predicate IsChoice<T, U(!new)>(out: seq<U>, s: seq<T>, f: T -> Option<U>) {
    exists at :: Lists(at, Taken(s, f)) && Follows(out, s, f, at)
  }

  lemma TakenSnoc<T, U>(s: seq<T>, f: T -> Option<U>)
    requires s != []
    ensures var init, n := s[..|s| - 1], |s| - 1;
      && (forall i :: Taken(s, f)(i) <==> Taken(init, f)(i) || (i == n && Taken(s, f)(n)))
      && (forall i :: Taken(init, f)(i) ==> i < n)
      && (Taken(s, f)(n) <==> f(s[n]).Some?)
  {
  }

  lemma FollowsSnoc<T, U>(out: seq<U>, s: seq<T>, f: T -> Option<U>, at: seq<int>)
    requires s != [] && Follows(out, s[..|s| - 1], f, at)
    ensures Follows(out + Listed(f(s[|s| - 1])), s, f, if f(s[|s| - 1]).Some? then at + [|s| - 1] else at)
  {
  }

  lemma NothingChosen<T, U(!new)>(f: T -> Option<U>)
    ensures IsChoice([], [], f)
  {
    assert Lists([], Taken([], f)) && Follows([], [], f, []);
  }

  /** One more element. */
  lemma ChoiceSnoc<T, U(!new)>(out: seq<U>, s: seq<T>, f: T -> Option<U>)
    requires s != [] && IsChoice(out, s[..|s| - 1], f)
    ensures IsChoice(out + Listed(f(s[|s| - 1])), s, f)
  {
    var init, n := s[..|s| - 1], |s| - 1;
    var at :| Lists(at, Taken(init, f)) && Follows(out, init, f, at);
    TakenSnoc(s, f);
    FollowsSnoc(out, s, f, at);
    hide Taken, Follows;
    ListsSnoc(at, Taken(init, f), Taken(s, f), n);
  }
}
