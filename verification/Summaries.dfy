/**
 Versioned summaries: each submission for a scope and window either is the latest
 one already, or is inserted and takes the place of the latest.
 */
module Summaries {
  import opened Options

  type SummaryId = string

  datatype Scope = Scope(serial: string, level: string, scopeId: string, start: int, end: int)

  datatype Row = Row(scope: Scope, version: nat, isLatest: bool, supersededBy: Option<SummaryId>)

  datatype Submission = Submission(id: SummaryId, scope: Scope)

  type Table = map<SummaryId, Row>

  predicate IsLatest(rows: Table, id: SummaryId, scope: Scope) {
    id in rows && rows[id].scope == scope && rows[id].isLatest
  }

  ghost predicate AtMostOneLatest(rows: Table) {
    forall scope, a, b :: IsLatest(rows, a, scope) && IsLatest(rows, b, scope) ==> a == b
  }

  /** The row the SELECT finds. */
  ghost function LatestOf(rows: Table, scope: Scope): (found: Option<SummaryId>)
    ensures found.Some? ==> IsLatest(rows, found.value, scope)
    ensures found.None? ==> forall id :: !IsLatest(rows, id, scope)
  {
    if exists id :: IsLatest(rows, id, scope) then
      var id :| IsLatest(rows, id, scope);
      Some(id)
    else None
  }

  /** INSERT ... ON CONFLICT (summary_id) DO NOTHING. */
  function Inserted(rows: Table, id: SummaryId, row: Row): Table {
    if id in rows then rows else rows[id := row]
  }

  function Demoted(rows: Table, prior: SummaryId, successor: SummaryId): Table
    requires prior in rows
  {
    rows[prior := rows[prior].(supersededBy := Some(successor), isLatest := false)]
  }

  ghost function Step(rows: Table, s: Submission): Table {
    match LatestOf(rows, s.scope)
    case None => Inserted(rows, s.id, Row(s.scope, 1, true, None))
    case Some(prior) =>
      if prior == s.id then rows
      else Demoted(Inserted(rows, s.id, Row(s.scope, rows[prior].version + 1, true, None)), prior, s.id)
  }

  /** The table after a serial run of submissions. */
  ghost function After(run: seq<Submission>): Table {
    if run == [] then map[] else Step(After(run[..|run| - 1]), run[|run| - 1])
  }

  lemma StepKeepsAtMostOne(rows: Table, s: Submission)
    requires AtMostOneLatest(rows)
    ensures AtMostOneLatest(Step(rows, s))
    ensures forall id, scope :: scope != s.scope ==> (IsLatest(Step(rows, s), id, scope) <==> IsLatest(rows, id, scope))
    ensures forall id :: IsLatest(Step(rows, s), id, s.scope) ==> id == s.id
  {
    var found := LatestOf(rows, s.scope);
    forall id | IsLatest(Step(rows, s), id, s.scope) ensures id == s.id {
      assert IsLatest(rows, id, s.scope) ==> found == Some(id);
    }
    forall id, scope | scope != s.scope ensures IsLatest(Step(rows, s), id, scope) <==> IsLatest(rows, id, scope) {
    }
  }

  lemma {:induction false} RunKeepsAtMostOne(run: seq<Submission>)
    ensures AtMostOneLatest(After(run))
  {
    if run != [] {
      RunKeepsAtMostOne(run[..|run| - 1]);
      StepKeepsAtMostOne(After(run[..|run| - 1]), run[|run| - 1]);
    }
  }

  /** upsert_summary and insert_embedding_job, which the executors always call together. */
  class SummaryStore {
    var rows: Table
    var jobs: set<SummaryId>
    ghost var log: seq<Submission>

    ghost predicate Valid()
      reads this
    {
      rows == After(log) && jobs == rows.Keys
    }

    constructor ()
      ensures Valid() && log == []
    {
      rows, jobs, log := map[], {}, [];
    }

    method UpsertSummary(s: Submission) returns (wasNew: bool)
      requires rows == After(log)
      modifies this`rows, this`log
      ensures log == old(log) + [s] && rows == After(log)
      ensures wasNew <==> !IsLatest(old(rows), s.id, s.scope)
    {
      RunKeepsAtMostOne(log);
      ghost var before := log;
      log := log + [s];
      assert log[..|log| - 1] == before;
      var found: Option<SummaryId> := None;
      if id :| id in rows && IsLatest(rows, id, s.scope) {
        found := Some(id);
      }
      if found.Some? && found.value == s.id {
        return false;
      }
      var version := if found.Some? then rows[found.value].version + 1 else 1;
      if s.id !in rows {
        rows := rows[s.id := Row(s.scope, version, true, None)];
      }
      if found.Some? {
        rows := Demoted(rows, found.value, s.id);
      }
      return true;
    }

    /** True when a new job row was inserted. */
    method InsertEmbeddingJob(id: SummaryId) returns (isNew: bool)
      modifies this`jobs
      ensures jobs == old(jobs) + {id} && isNew == (id !in old(jobs))
    {
      isNew := id !in jobs;
      jobs := jobs + {id};
    }

    /** Every summary row has its embedding job, and a job is new exactly when its summary is. */
    method Publish(s: Submission) returns (newJob: bool)
      requires Valid()
      modifies this
      ensures Valid() && log == old(log) + [s]
      ensures newJob <==> s.id !in old(rows)
    {
      var wasNew := UpsertSummary(s);
      newJob := InsertEmbeddingJob(s.id);
      assert log[..|log| - 1] == old(log);
    }
  }
}
