/**
 * zest-pw/zephyr-api/get-results-from-json.ts: `getResultsFromJson` reads the saved report
 * and drops the `testTitle` of every test and the `stepTitle` of every step before the
 * results go to Zephyr. The file is given already parsed (None when it does not exist);
 * a dropped key is modelled as an absent field.
 */
module ResultsFromJson {
  import opened Wrappers
  import opened Report

  /** The TypeError `undefined.map(...)` raises. */
  const UndefinedMapError := "TypeError: Cannot read properties of undefined (reading 'map')"

  /** `({stepTitle, ...step}) => step` */
  function StripStep(step: StepRecord): (r: StepRecord)
    ensures r.stepTitle.None?
    ensures r.title == step.title && r.status == step.status && r.duration == step.duration
    ensures r.attachments == step.attachments && r.error == step.error && r.actualResult == step.actualResult
  {
    step.(stepTitle := None)
  }

  /** `({testTitle, ...test}) => ({...test, steps: test.steps.map(StripStep)})`; throws without steps. */
  function StripTest(test: TestRecord): Result<TestRecord> {
    match test.steps
    case None => Throws(UndefinedMapError)
    case Some(steps) =>
      Ok(test.(testTitle := None, steps := Some(seq(|steps|, i requires 0 <= i < |steps| => StripStep(steps[i])))))
  }

  /** `getResultsFromJson()`: null without a file, else the stripped report; throws without `tests`. */
  function GetResultsFromJson(file: Option<Results>): Result<Option<Results>> {
    match file
    case None => Ok(None)
    case Some(results) =>
      match results.tests
      case None => Throws(UndefinedMapError)
      case Some(tests) =>
        match MapIndexed(tests, (_: nat, test: TestRecord) => StripTest(test))
        case Throws(e) => Throws(e)
        case Ok(stripped) => Ok(Some(results.(tests := Some(stripped))))
  }

  /** A missing results file gives null. */
  lemma MissingFileGivesNull()
    ensures GetResultsFromJson(None) == Ok(None)
  {
  }

  /** Reading throws exactly when the report has no `tests` array or a test has no `steps` array. */
  lemma GetResultsThrowsIff(results: Results)
    ensures var r := GetResultsFromJson(Some(results));
      && (r.Throws? <==> results.tests.None? || exists i :: 0 <= i < |results.tests.value| && results.tests.value[i].steps.None?)
      && (r.Throws? ==> r.reason == UndefinedMapError)
  {
    if results.tests.Some? {
      var tests := results.tests.value;
      var f := (_: nat, test: TestRecord) => StripTest(test);
      if exists i :: 0 <= i < |tests| && tests[i].steps.None? {
        var i :| 0 <= i < |tests| && tests[i].steps.None?;
        assert f(i, tests[i]).Throws?;
      }
    }
  }

  /**
   * A read report keeps its run, its tests and their steps in number and order, and every
   * field of each, except that no test has a `testTitle` and no step a `stepTitle`.
   */
  lemma StrippedReport(results: Results, i: nat, j: nat)
    requires GetResultsFromJson(Some(results)).Ok?
    requires results.tests.Some? && i < |results.tests.value|
    ensures var out := GetResultsFromJson(Some(results)).value.value;
      var test := results.tests.value[i];
      && out.run == results.run && out.tests.Some? && |out.tests.value| == |results.tests.value|
      && test.steps.Some?
      && out.tests.value[i].testTitle.None?
      && out.tests.value[i] == test.(testTitle := None, steps := out.tests.value[i].steps)
      && out.tests.value[i].steps.Some? && |out.tests.value[i].steps.value| == |test.steps.value|
      && (j < |test.steps.value| ==> out.tests.value[i].steps.value[j] == test.steps.value[j].(stepTitle := None))
  {
    var f := (_: nat, test: TestRecord) => StripTest(test);
    assert f(i, results.tests.value[i]).Ok?;
  }

  /** Reading an already stripped report strips nothing more. */
  lemma StripIdempotent(results: Results)
    requires GetResultsFromJson(Some(results)).Ok?
    ensures var once := GetResultsFromJson(Some(results)).value.value;
      GetResultsFromJson(Some(once)) == Ok(Some(once))
  {
    var once := GetResultsFromJson(Some(results)).value.value;
    var tests := once.tests.value;
    var f := (_: nat, test: TestRecord) => StripTest(test);
    forall i | 0 <= i < |tests|
      ensures f(i, tests[i]) == Ok(tests[i])
    {
      StrippedReport(results, i, 0);
      var steps := tests[i].steps.value;
      assert seq(|steps|, k requires 0 <= k < |steps| => StripStep(steps[k])) == steps;
    }
    var again := MapIndexed(tests, f);
    assert again.value == tests;
  }
}
