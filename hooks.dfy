/**
 * zest-pw/hooks/hooks.ts: `testHooks.onEnd(result)` prints the same per-test, per-step
 * listing as the formatter, without the PRINT_TEST_RESULTS gate, without saving
 * screenshots and without throwing on a test that lacks a location or a title.
 * `onStepEnd` does nothing.
 */
module Hooks {
  import opened Wrappers
  import Seqs
  import opened Report
  import Enrich
  import opened Formatter

  /** One iteration of the hook's `forEach`: the test's info lines, then its steps. */
  function HookTestLines(test: TestRecord, index: nat, cwd: string, planner: Planner): seq<string> {
    TestInfoLines(test, index)
    + TestStepsLines(Enrich.FilterUserSteps(test.steps.GetOr([])), ListedSteps(test, cwd, planner), NoSaving)
  }

  function HookBlocks(tests: seq<TestRecord>, cwd: string, planner: Planner): seq<seq<string>> {
    seq(|tests|, i requires 0 <= i < |tests| => HookTestLines(tests[i], i, cwd, planner))
  }

  /** Everything `onEnd` prints: the tests when there is a `tests` array, then the closing banner. */
  function OnEndLines(results: Results, cwd: string, planner: Planner): seq<string> {
    (if results.tests.Some? then [DetailsBanner] + Seqs.Flatten(HookBlocks(results.tests.value, cwd, planner)) else [])
    + [FinalBanner]
  }

  /** `testHooks.onEnd(result)`. */
  method OnEnd(results: Results, cwd: string, planner: Planner) returns (lines: seq<string>)
    ensures lines == OnEndLines(results, cwd, planner)
  {
    if results.tests.None? {
      return [FinalBanner];
    }
    var tests := results.tests.value;
    ghost var blocks := HookBlocks(tests, cwd, planner);
    var body: seq<string> := [];
    var i := 0;
    while i < |tests|
      invariant 0 <= i <= |tests|
      invariant body == Seqs.Flatten(blocks[..i])
    {
      var test := tests[i];
      var info := TestInfoLines(test, i);
      var userSteps := Enrich.FilterUserSteps(test.steps.GetOr([]));
      var plannedSteps := PlannedStepsOf(test, cwd, planner);
      var allSteps := Enrich.CombineSteps(userSteps, plannedSteps, InProgressStep);
      var stepLines := PrintTestSteps(userSteps, allSteps, NoSaving);
      Seqs.FlattenSnoc(blocks, i);
      body := body + (info + stepLines);
      i := i + 1;
    }
    assert blocks[..|tests|] == blocks;
    lines := [DetailsBanner] + body + [FinalBanner];
  }

  /**
   * The hook always ends with the closing banner, and opens with the details banner exactly
   * when the report has a `tests` array; without one it prints the closing banner alone.
   */
  lemma OnEndBanners(results: Results, cwd: string, planner: Planner)
    ensures var lines := OnEndLines(results, cwd, planner);
      && lines != [] && lines[|lines| - 1] == FinalBanner
      && (lines[0] == DetailsBanner <==> results.tests.Some?)
      && (results.tests.None? ==> lines == [FinalBanner])
  {
    if results.tests.None? {
      assert FinalBanner[5] != DetailsBanner[5];
    }
  }

  /** A test without a source file is listed with its user steps only, and no placeholder. */
  lemma HookWithoutSourceFile(test: TestRecord, index: nat, cwd: string, planner: Planner)
    requires !HasSourceFile(test)
    ensures var user := Enrich.FilterUserSteps(test.steps.GetOr([]));
      HookTestLines(test, index, cwd, planner) == TestInfoLines(test, index) + TestStepsLines(user, user, NoSaving)
  {
    Enrich.CombineStepsNothingLeft(Enrich.FilterUserSteps(test.steps.GetOr([])), [], InProgressStep);
  }

  /**
   * Where the formatter neither throws nor saves, the hook prints exactly what it prints:
   * the two listings differ only in the formatter's gate, its screenshots and its crash
   * on a test without a location or a title.
   */
  lemma HookMatchesFormatter(results: Results, env: Env, cwd: string, planner: Planner, saver: Saver)
    requires env.printTestResults == Some("true") && env.saveScreenshots != Some("true")
    requires results.tests.Some? && NoneCrashes(results.tests.value)
    ensures ReportOutput(results, env, cwd, planner, saver) == Printed(OnEndLines(results, cwd, planner), false)
  {
    var tests := results.tests.value;
    TestsOutputBlocks(tests, env, cwd, planner, saver);
    var formatted := Blocks(tests, env, cwd, planner, saver);
    var hooked := HookBlocks(tests, cwd, planner);
    assert formatted == hooked by {
      forall i | 0 <= i < |tests|
        ensures formatted[i] == hooked[i]
      {
        assert !Crashes(tests[i]);
      }
    }
  }
}
