/** The latest row and the chain of versions of each scope. */
module SummaryTheorems {
  import opened Options
  import opened Summaries

  /** Known already, and not the latest of the scope it is submitted for. */
  predicate Stale(rows: Table, s: Submission) {
    s.id in rows && !IsLatest(rows, s.id, s.scope)
  }

  ghost predicate NoStale(run: seq<Submission>) {
    forall n :: 0 <= n < |run| ==> !Stale(After(run[..n]), run[n])
  }

  predicate Submitted(run: seq<Submission>, scope: Scope) {
    exists n :: 0 <= n < |run| && run[n].scope == scope
  }

  ghost predicate HasLatest(rows: Table, scope: Scope) {
    exists id :: IsLatest(rows, id, scope)
  }

  /** The scope's last submission was not stale. */
  ghost predicate LastIsFresh(run: seq<Submission>, scope: Scope) {
    run != [] &&
    if run[|run| - 1].scope == scope then !Stale(After(run[..|run| - 1]), run[|run| - 1])
    else LastIsFresh(run[..|run| - 1], scope)
  }

  lemma StepLatest(rows: Table, s: Submission)
    requires AtMostOneLatest(rows)
    ensures HasLatest(Step(rows, s), s.scope) <==> !Stale(rows, s)
    ensures forall scope :: scope != s.scope ==> (HasLatest(Step(rows, s), scope) <==> HasLatest(rows, scope))
  {
    StepKeepsAtMostOne(rows, s);
    if !Stale(rows, s) {
      assert IsLatest(Step(rows, s), s.id, s.scope);
    }
  }

  /**
   Never more than one latest row; and one exactly when the last submission for
   the scope was not stale.
   */
  lemma {:induction false} LatestIff(run: seq<Submission>, scope: Scope)
    ensures AtMostOneLatest(After(run))
    ensures HasLatest(After(run), scope) <==> LastIsFresh(run, scope)
  {
    RunKeepsAtMostOne(run);
    if run != [] {
      var before := run[..|run| - 1];
      LatestIff(before, scope);
      StepLatest(After(before), run[|run| - 1]);
    }
  }

  /** At every point of the run, every scope submitted so far has a latest row. */
  ghost predicate AlwaysLatest(run: seq<Submission>) {
    forall n, scope :: 0 <= n <= |run| && Submitted(run[..n], scope) ==> HasLatest(After(run[..n]), scope)
  }

  /** A run without stale submissions is what it takes, and all it takes, for a latest row at every point. */
  lemma {:induction false} AlwaysLatestIff(run: seq<Submission>)
    ensures AlwaysLatest(run) <==> NoStale(run)
  {
    if AlwaysLatest(run) {
      forall n | 0 <= n < |run| ensures !Stale(After(run[..n]), run[n]) {
        assert run[..n + 1][n] == run[n] && run[..n + 1][..n] == run[..n];
        LatestIff(run[..n + 1], run[n].scope);
        assert Submitted(run[..n + 1], run[n].scope);
      }
    }
    if NoStale(run) {
      forall n, scope | 0 <= n <= |run| && Submitted(run[..n], scope) ensures HasLatest(After(run[..n]), scope) {
        FreshPrefix(run, n, scope);
        LatestIff(run[..n], scope);
      }
    }
  }

  lemma {:induction false} FreshPrefix(run: seq<Submission>, n: nat, scope: Scope)
    requires NoStale(run) && n <= |run| && Submitted(run[..n], scope)
    ensures LastIsFresh(run[..n], scope)
  {
    hide After, Stale;
    assert n > 0;
    var prefix := run[..n];
    assert prefix[..n - 1] == run[..n - 1] && prefix[n - 1] == run[n - 1];
    if run[n - 1].scope == scope {
      assert !Stale(After(run[..n - 1]), run[n - 1]);
    } else {
      var k :| 0 <= k < n && prefix[k].scope == scope;
      assert run[..n - 1][k].scope == scope;
      assert Submitted(run[..n - 1], scope);
      FreshPrefix(run, n - 1, scope);
    }
  }

  // ---------------------------------------------------------------------
  // The chain of versions
  // ---------------------------------------------------------------------

  /** The ids submitted for a scope, in order of first submission. */
  function Chain(run: seq<Submission>, scope: Scope): seq<SummaryId> {
    if run == [] then []
    else
      var before, last := Chain(run[..|run| - 1], scope), run[|run| - 1];
      if last.scope == scope && last.id !in before then before + [last.id] else before
  }

  /** The row of the n-th id of a chain: version n + 1, superseded by the next, the last one latest. */
  function ChainRow(scope: Scope, chain: seq<SummaryId>, n: nat): Row
    requires n < |chain|
  {
    if n == |chain| - 1 then Row(scope, n + 1, true, None) else Row(scope, n + 1, false, Some(chain[n + 1]))
  }

  ghost predicate IsChain(rows: Table, scope: Scope, chain: seq<SummaryId>) {
    && (forall id :: id in chain <==> id in rows && rows[id].scope == scope)
    && (forall i, j :: 0 <= i < j < |chain| ==> chain[i] != chain[j])
    && (forall n :: 0 <= n < |chain| ==> chain[n] in rows && rows[chain[n]] == ChainRow(scope, chain, n))
  }

  /** The last id of a chain is the latest row; an empty chain has none. */
  lemma ChainTop(rows: Table, scope: Scope, chain: seq<SummaryId>)
    requires AtMostOneLatest(rows) && IsChain(rows, scope, chain)
    ensures LatestOf(rows, scope) == if chain == [] then None else Some(chain[|chain| - 1])
  {
    if chain != [] {
      assert IsLatest(rows, chain[|chain| - 1], scope);
    }
  }

  function Grown(rows: Table, scope: Scope, chain: seq<SummaryId>, id: SummaryId): Table
    requires chain != [] ==> chain[|chain| - 1] in rows
  {
    var more := rows[id := Row(scope, |chain| + 1, true, None)];
    if chain == [] then more else Demoted(more, chain[|chain| - 1], id)
  }

  lemma GrownIsChain(rows: Table, scope: Scope, chain: seq<SummaryId>, id: SummaryId)
    requires IsChain(rows, scope, chain) && id !in rows
    ensures IsChain(Grown(rows, scope, chain, id), scope, chain + [id])
  {
  }

  lemma ChainStep(rows: Table, s: Submission, chain: seq<SummaryId>)
    requires AtMostOneLatest(rows) && !Stale(rows, s) && IsChain(rows, s.scope, chain)
    ensures IsChain(Step(rows, s), s.scope, if s.id in chain then chain else chain + [s.id])
  {
    ChainTop(rows, s.scope, chain);
    if s.id in chain {
      assert IsLatest(rows, s.id, s.scope);
    } else {
      assert s.id !in rows;
      assert Step(rows, s) == Grown(rows, s.scope, chain, s.id);
      GrownIsChain(rows, s.scope, chain, s.id);
    }
  }

  lemma OtherChain(rows: Table, s: Submission, scope: Scope, chain: seq<SummaryId>)
    requires scope != s.scope && IsChain(rows, scope, chain)
    ensures IsChain(Step(rows, s), scope, chain)
  {
  }

  /**
   Without stale submissions the table is a closed form of the run: per scope the ids
   in order of first submission, versions 1 to n, each superseded by the next.
   */
  lemma {:induction false} TableIsChains(run: seq<Submission>, scope: Scope)
    requires NoStale(run)
    ensures IsChain(After(run), scope, Chain(run, scope))
  {
    if run != [] {
      var before, last := run[..|run| - 1], run[|run| - 1];
      forall n | 0 <= n < |before| ensures !Stale(After(before[..n]), before[n]) {
        assert before[..n] == run[..n];
      }
      TableIsChains(before, scope);
      RunKeepsAtMostOne(before);
      if last.scope == scope {
        ChainStep(After(before), last, Chain(before, scope));
      } else {
        OtherChain(After(before), last, scope, Chain(before, scope));
      }
    }
  }

  // ---------------------------------------------------------------------
  // A stale submission
  // ---------------------------------------------------------------------

  lemma AfterOne(run: seq<Submission>, s: Submission)
    ensures After(run + [s]) == Step(After(run), s)
  {
  }

  predicate VersionIs(rows: Table, id: SummaryId, version: nat) {
    id in rows && rows[id].version == version
  }

  /** a, b, a again: no row is latest, although the call reports a as new; then c restarts at version 1. */
  lemma StaleSubmissionLosesLatest(scope: Scope)
    ensures var a, b, c := Submission("a", scope), Submission("b", scope), Submission("c", scope);
      !HasLatest(After([a, b, a]), scope) && VersionIs(After([a, b, a, c]), "a", 1) && VersionIs(After([a, b, a, c]), "c", 1)
  {
    var a, b, c := Submission("a", scope), Submission("b", scope), Submission("c", scope);
    AfterOne([], a);
    assert [] + [a] == [a];
    assert IsLatest(After([a]), "a", scope);
    AfterOne([a], b);
    assert [a] + [b] == [a, b];
    assert IsLatest(After([a, b]), "b", scope) && !IsLatest(After([a, b]), "a", scope);
    AfterOne([a, b], a);
    assert [a, b] + [a] == [a, b, a];
    AfterOne([a, b, a], c);
    assert [a, b, a] + [c] == [a, b, a, c];
  }
}
