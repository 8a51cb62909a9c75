/**
 * Schema validation as the forms' zod schemas perform it: every failing rule
 * contributes one issue (field path and message), in schema order, and the
 * values are accepted exactly when no issue is raised.
 */
module Validation {
  import opened Wrappers

  /** One validation error, shown under the field named by `path`. */
  datatype Issue = Issue(path: string, message: string)

  /** One rule: no issue when it holds, otherwise its issue. */
  function Rule(holds: bool, path: string, message: string): (r: seq<Issue>)
    ensures holds <==> r == []
    ensures !holds ==> r == [Issue(path, message)]
  {
    if holds then [] else [Issue(path, message)]
  }

  /** `z.string().min(1, message)`: the field must not be empty. */
  function Required(value: string, path: string, message: string): (r: seq<Issue>)
    ensures r == [] <==> value != ""
    ensures value == "" ==> r == [Issue(path, message)]
  {
    Rule(value != "", path, message)
  }

  /** Some issue is reported under `path`. */
  predicate HasIssueAt(issues: seq<Issue>, path: string) {
    exists i :: 0 <= i < |issues| && issues[i].path == path
  }

  /** An issue under `path` is in a concatenation iff it is in one of the parts. */
  lemma HasIssueAtConcat(a: seq<Issue>, b: seq<Issue>, path: string)
    ensures HasIssueAt(a + b, path) <==> HasIssueAt(a, path) || HasIssueAt(b, path)
  {
    if HasIssueAt(a, path) {
      var i :| 0 <= i < |a| && a[i].path == path;
      assert (a + b)[i] == a[i];
    }
    if HasIssueAt(b, path) {
      var i :| 0 <= i < |b| && b[i].path == path;
      assert (a + b)[|a| + i] == b[i];
    }
    if HasIssueAt(a + b, path) {
      var i :| 0 <= i < |a + b| && (a + b)[i].path == path;
      if i >= |a| {
        assert b[i - |a|] == (a + b)[i];
      }
    }
  }

  /** A rule reports under `path` exactly when it fails and is attached to `path`. */
  lemma HasIssueAtRule(holds: bool, p: string, message: string, path: string)
    ensures HasIssueAt(Rule(holds, p, message), path) <==> !holds && p == path
  {
    if !holds {
      assert Rule(holds, p, message)[0].path == p;
    }
  }

  /**
   * How a submit handler that wraps `onSubmit` in `try`/`catch` settles: it
   * never rejects, and it logs the error exactly when submission failed.
   */
  datatype Settled = Settled(rejected: bool, logged: Option<string>)

  function CatchAndLog(outcome: Outcome): (r: Settled)
    ensures !r.rejected
    ensures r.logged.Some? <==> outcome.Err?
    ensures outcome.Err? ==> r.logged.value == outcome.message
  {
    match outcome
    case Ok => Settled(false, None)
    case Err(message) => Settled(false, Some(message))
  }
}
