/**
 * zest-pw/utils/enrich-test-results.ts: hides the runner's internal steps and appends a
 * placeholder for every planned step that did not run. The denylist filter and the merge
 * defined here are also the ones the formatter and the end-of-run hook use.
 */
module Enrich {
  import opened Wrappers
  import opened Text
  import Seqs
  import opened Report

  /**
   * The denylist of `filterUserSteps`: the fragments are looked for in the lower-cased
   * title, the prefixes in the title as written.
   */
  predicate IsUserTitle(title: string) {
    var lower := Lower(title);
    && !Contains(lower, "before hooks")
    && !Contains(lower, "after hooks")
    && !Contains(lower, "worker cleanup")
    && !Contains(lower, "cleanup")
    && !StartsWith(title, "hook@")
    && !StartsWith(title, "fixture@")
    && !StartsWith(title, "pw:api@")
    && !StartsWith(title, "test.attach@")
    && !StartsWith(title, "test.before")
    && !StartsWith(title, "test.after")
  }

  /** A step is kept when its title (`''` when absent) passes the denylist. */
  predicate IsUserStep(step: StepRecord) {
    IsUserTitle(OrEmpty(step.title))
  }

  /**
   * `filterUserSteps(steps)`: the user steps in their original order. Its contract pins the
   * result down: a subsequence of `steps`, made of user steps only, as many as `steps` has.
   */
  function FilterUserSteps(steps: seq<StepRecord>): (r: seq<StepRecord>)
    ensures Seqs.IsSubsequence(r, steps)
    ensures forall i :: 0 <= i < |r| ==> IsUserStep(r[i])
    ensures |r| == Seqs.CountIf(steps, IsUserStep)
  {
    Seqs.Filter(steps, IsUserStep)
  }

  /** Filtering removes only hidden steps: every user step of the input is in the output. */
  lemma FilterUserStepsKeepsUserSteps(steps: seq<StepRecord>, i: nat)
    requires i < |steps| && IsUserStep(steps[i])
    ensures steps[i] in FilterUserSteps(steps)
  {
    Seqs.FilterKeepsSatisfying(steps, IsUserStep, i);
  }

  /** Filtering twice is filtering once. */
  lemma FilterUserStepsIdempotent(steps: seq<StepRecord>)
    ensures FilterUserSteps(FilterUserSteps(steps)) == FilterUserSteps(steps)
  {
    Seqs.FilterIdempotent(steps, IsUserStep);
  }

  /** A step without a title counts as titled `''` and is kept. */
  lemma UntitledStepIsKept(step: StepRecord)
    requires step.title.None? || step.title == Some("")
    ensures IsUserStep(step)
  {
    assert Lower("") == "";
  }

  /** The prefixes are matched case-sensitively: `Hook@…` is a user step, `hook@…` is not. */
  lemma PrefixesAreCaseSensitive()
    ensures !IsUserTitle("hook@x")
    ensures IsUserTitle("Hook@x")
  {
    var lower := Lower("Hook@x");
    assert lower == "hook@x";
    forall f: string, i: nat | |f| >= 7 && i <= |lower|
      ensures !OccursAt(lower, f, i)
    {
    }
  }

  /** The fragments are matched case-insensitively: `Cleanup` is hidden. */
  lemma FragmentsAreCaseInsensitive()
    ensures !IsUserTitle("Cleanup")
  {
    var lower := Lower("Cleanup");
    assert lower == "cleanup";
    assert OccursAt(lower, "cleanup", 0);
  }

  /**
   * `combineSteps(executed, planned)`: the executed steps, unchanged and first, then one
   * placeholder for each planned title from position `|executed|` on.
   */
  function CombineSteps(executed: seq<StepRecord>, planned: seq<string>, placeholder: string -> StepRecord): (r: seq<StepRecord>)
    ensures |r| == if |planned| > |executed| then |planned| else |executed|
    ensures r[..|executed|] == executed
    ensures forall k :: |executed| <= k < |r| ==> r[k] == placeholder(planned[k])
  {
    var rest := Seqs.Drop(planned, |executed|);
    executed + seq(|rest|, i requires 0 <= i < |rest| => placeholder(rest[i]))
  }

  /** A merge with at least as many executed as planned steps adds nothing. */
  lemma CombineStepsNothingLeft(executed: seq<StepRecord>, planned: seq<string>, placeholder: string -> StepRecord)
    requires |planned| <= |executed|
    ensures CombineSteps(executed, planned, placeholder) == executed
  {
    var r := CombineSteps(executed, planned, placeholder);
    assert r == r[..|executed|];
  }

  /**
   * When the executed steps are the first planned ones, the merged titles are exactly the
   * planned titles: the list reads as the plan, with the unexecuted tail as placeholders.
   */
  lemma CombineStepsFollowsPlan(executed: seq<StepRecord>, planned: seq<string>, placeholder: string -> StepRecord)
    requires |executed| <= |planned|
    requires forall i :: 0 <= i < |executed| ==> executed[i].title == Some(planned[i])
    requires forall t :: placeholder(t).title == Some(t)
    ensures var r := CombineSteps(executed, planned, placeholder);
      |r| == |planned| && forall i :: 0 <= i < |r| ==> r[i].title == Some(planned[i])
  {
    var r := CombineSteps(executed, planned, placeholder);
    forall i | 0 <= i < |r|
      ensures r[i].title == Some(planned[i])
    {
      if i < |executed| {
        assert r[i] == r[..|executed|][i];
      }
    }
  }

  /** The enricher's placeholder: `{title, status: 'skipped', attachments: []}` and nothing else. */
  function SkippedStep(title: string): (r: StepRecord)
    ensures r.title == Some(title) && r.status == Some("skipped") && r.attachments == Some([])
    ensures r.duration.None? && r.error.None? && r.stepTitle.None? && r.actualResult.None?
  {
    StepRecord(Some(title), Some("skipped"), None, Some([]), None, None, None)
  }

  /** `enrichTestWithPlannedSteps(test)`: the test with its steps replaced by the merged list. */
  function EnrichTest(test: TestRecord, cwd: string, planner: Planner): (r: TestRecord)
    ensures r == test.(steps := r.steps)
    ensures r.steps == Some(CombineSteps(FilterUserSteps(test.steps.GetOr([])), PlannedStepsOf(test, cwd, planner), SkippedStep))
  {
    var userSteps := FilterUserSteps(test.steps.GetOr([]));
    var plannedSteps := PlannedStepsOf(test, cwd, planner);
    test.(steps := Some(CombineSteps(userSteps, plannedSteps, SkippedStep)))
  }

  /** Every step of an enriched test is a user step from the input or a skipped placeholder for a planned title. */
  lemma EnrichTestSteps(test: TestRecord, cwd: string, planner: Planner)
    ensures var r := EnrichTest(test, cwd, planner).steps.value;
      var user := FilterUserSteps(test.steps.GetOr([]));
      var planned := PlannedStepsOf(test, cwd, planner);
      && |r| == (if |planned| > |user| then |planned| else |user|)
      && (forall i :: 0 <= i < |user| ==> r[i] == user[i])
      && (forall k :: |user| <= k < |r| ==> r[k] == SkippedStep(planned[k]))
  {
    var r := EnrichTest(test, cwd, planner).steps.value;
    var user := FilterUserSteps(test.steps.GetOr([]));
    forall i | 0 <= i < |user|
      ensures r[i] == user[i]
    {
      assert r[i] == r[..|user|][i];
    }
  }

  /** A test without a source file gets no placeholder: its steps are its user steps. */
  lemma NoSourceFileNoPlaceholders(test: TestRecord, cwd: string, planner: Planner)
    requires !HasSourceFile(test)
    ensures EnrichTest(test, cwd, planner).steps == Some(FilterUserSteps(test.steps.GetOr([])))
  {
    CombineStepsNothingLeft(FilterUserSteps(test.steps.GetOr([])), [], SkippedStep);
  }

  /**
   * Enriching an enriched test changes nothing, provided no planned title is itself hidden
   * by the denylist (such a placeholder would be filtered out and added again).
   */
  lemma {:induction false} EnrichTestIdempotent(test: TestRecord, cwd: string, planner: Planner)
    requires forall k :: 0 <= k < |PlannedStepsOf(test, cwd, planner)| ==> IsUserTitle(PlannedStepsOf(test, cwd, planner)[k])
    ensures EnrichTest(EnrichTest(test, cwd, planner), cwd, planner) == EnrichTest(test, cwd, planner)
  {
    var once := EnrichTest(test, cwd, planner);
    var steps := once.steps.value;
    var user := FilterUserSteps(test.steps.GetOr([]));
    var planned := PlannedStepsOf(test, cwd, planner);
    assert PlannedStepsOf(once, cwd, planner) == planned;
    forall i | 0 <= i < |steps|
      ensures IsUserStep(steps[i])
    {
      if i < |user| {
        assert steps[i] == steps[..|user|][i];
      } else {
        assert steps[i] == SkippedStep(planned[i]);
      }
    }
    Seqs.FilterAllSatisfy(steps, IsUserStep);
    CombineStepsNothingLeft(steps, planned, SkippedStep);
  }

  /**
   * `enrichTestResultsWithPlannedSteps(results)`: a report without a `tests` array comes back
   * unchanged; otherwise every test is enriched, in order, and the run fields are kept.
   */
  function EnrichTestResults(results: Results, cwd: string, planner: Planner): (r: Results)
    ensures results.tests.None? ==> r == results
    ensures r.run == results.run
    ensures results.tests.Some? ==> r.tests.Some? && |r.tests.value| == |results.tests.value|
    ensures results.tests.Some? ==> forall i :: 0 <= i < |results.tests.value| ==>
      r.tests.value[i] == EnrichTest(results.tests.value[i], cwd, planner)
  {
    match results.tests
    case None => results
    case Some(tests) =>
      results.(tests := Some(seq(|tests|, i requires 0 <= i < |tests| => EnrichTest(tests[i], cwd, planner))))
  }

  /** Enrichment keeps every field of every test except its steps. */
  lemma EnrichTestResultsKeepsFields(results: Results, cwd: string, planner: Planner, i: nat)
    requires results.tests.Some? && i < |results.tests.value|
    ensures var before := results.tests.value[i];
      var after := EnrichTestResults(results, cwd, planner).tests.value[i];
      && after.title == before.title && after.location == before.location && after.status == before.status
      && after.duration == before.duration && after.error == before.error && after.testTitle == before.testTitle
  {
  }
}
