/** Runs of a state machine: the actions of everybody in one sequence, and what one actor does in it. */
module Runs {
  import opened Options

  function Play<S, A>(step: (S, A) -> S, s: S, actions: seq<A>): S
    decreases |actions|
  {
    if actions == [] then s else Play(step, step(s, actions[0]), actions[1..])
  }

  lemma {:induction false} RunAppend<S, A>(step: (S, A) -> S, s: S, xs: seq<A>, ys: seq<A>)
    ensures Play(step, s, xs + ys) == Play(step, Play(step, s, xs), ys)
    decreases |xs|
  {
    if xs == [] {
      assert xs + ys == ys;
    } else {
      assert (xs + ys)[1..] == xs[1..] + ys;
      RunAppend(step, step(s, xs[0]), xs[1..], ys);
    }
  }

  lemma RunSnoc<S, A>(step: (S, A) -> S, s: S, xs: seq<A>, a: A)
    ensures Play(step, s, xs + [a]) == step(Play(step, s, xs), a)
  {
    RunAppend(step, s, xs, [a]);
    assert Play(step, step(Play(step, s, xs), a), [a][1..]) == step(Play(step, s, xs), a);
  }

  lemma RunCons<S, A>(step: (S, A) -> S, s: S, a: A, rest: seq<A>)
    ensures Play(step, s, [a] + rest) == Play(step, step(s, a), rest)
    ensures Play(step, s, [a]) == step(s, a)
  {
    assert ([a] + rest)[1..] == rest && [a][1..] == [];
  }

  lemma UnfoldFour<S, A>(step: (S, A) -> S, s: S, xs: seq<A>)
    requires |xs| == 4
    ensures Play(step, s, xs) == step(step(step(step(s, xs[0]), xs[1]), xs[2]), xs[3])
  {
    RunSnoc(step, s, [], xs[0]);
    RunSnoc(step, s, [xs[0]], xs[1]);
    RunSnoc(step, s, [xs[0], xs[1]], xs[2]);
    RunSnoc(step, s, [xs[0], xs[1], xs[2]], xs[3]);
    assert [] + [xs[0]] == [xs[0]];
    assert [xs[0]] + [xs[1]] == [xs[0], xs[1]];
    assert [xs[0], xs[1]] + [xs[2]] == [xs[0], xs[1], xs[2]];
    assert [xs[0], xs[1], xs[2]] + [xs[3]] == xs;
  }

  /** The operations that one actor contributes to a run. */
  function Own<A, O>(opOf: A -> Option<O>, actions: seq<A>): seq<O> {
    if actions == [] then []
    else
      var before, last := Own(opOf, actions[..|actions| - 1]), opOf(actions[|actions| - 1]);
      if last.Some? then before + [last.value] else before
  }

  lemma OwnSnoc<A, O>(opOf: A -> Option<O>, actions: seq<A>, a: A)
    ensures Own(opOf, actions + [a]) == Own(opOf, actions) + if opOf(a).Some? then [opOf(a).value] else []
  {
    assert (actions + [a])[..|actions|] == actions;
  }

  /** At position from or later of the log, a was done when the run stood at s. */
  ghost predicate TookAt<S, A(!new)>(step: (S, A) -> S, start: S, log: seq<A>, from: nat, a: A, s: S) {
    exists n :: from <= n < |log| && log[n] == a && s == Play(step, start, log[..n])
  }

  lemma JustTook<S, A(!new)>(step: (S, A) -> S, start: S, log: seq<A>, log': seq<A>, from: nat, a: A, s: S)
    requires from <= |log| < |log'| && log <= log' && log'[|log|] == a && s == Play(step, start, log)
    ensures TookAt(step, start, log', from, a, s)
  {
    assert log'[..|log|] == log;
  }

  lemma TookStays<S, A(!new)>(step: (S, A) -> S, start: S, log: seq<A>, log': seq<A>, from: nat, from': nat, a: A, s: S)
    requires TookAt(step, start, log, from, a, s) && log <= log' && from' <= from
    ensures TookAt(step, start, log', from', a, s)
  {
    hide Play;
    var n :| from <= n < |log| && log[n] == a && s == Play(step, start, log[..n]);
    assert log'[..n] == log[..n] && log'[n] == log[n];
  }

  /** Of these operations only a beginning was done, and then crash. */
  ghost predicate BrokeOff<O(!new)>(before: seq<O>, now: seq<O>, ops: seq<O>, crash: O) {
    exists n :: 0 <= n <= |ops| && now == before + ops[..n] + [crash]
  }

  /** All of ops is done, or only a beginning and then crash. */
  ghost predicate Performed<O(!new)>(alive: bool, before: seq<O>, now: seq<O>, ops: seq<O>, crash: O) {
    if alive then now == before + ops else BrokeOff(before, now, ops, crash)
  }

  lemma BrokeNow<O(!new)>(before: seq<O>, crash: O)
    ensures BrokeOff(before, before + [crash], [], crash)
  {
    assert before + [][..0] + [crash] == before + [crash];
  }

  /** Breaking off the first of two pieces of work breaks off the whole. */
  lemma BrokeEarly<O(!new)>(before: seq<O>, now: seq<O>, first: seq<O>, second: seq<O>, crash: O)
    requires BrokeOff(before, now, first, crash)
    ensures BrokeOff(before, now, first + second, crash)
  {
    var n :| 0 <= n <= |first| && now == before + first[..n] + [crash];
    assert (first + second)[..n] == first[..n];
  }

  /** One piece of work after another, the first of them complete. */
  lemma PerformedThen<O(!new)>(alive: bool, before: seq<O>, mid: seq<O>, now: seq<O>, first: seq<O>, second: seq<O>, crash: O)
    requires mid == before + first && Performed(alive, mid, now, second, crash)
    ensures Performed(alive, before, now, first + second, crash)
  {
    if alive {
      assert before + first + second == before + (first + second);
    } else {
      var n :| 0 <= n <= |second| && now == mid + second[..n] + [crash];
      assert (first + second)[..|first| + n] == first + second[..n];
      assert before + (first + second)[..|first| + n] + [crash] == now;
    }
  }
}
