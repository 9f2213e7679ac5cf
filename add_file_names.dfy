/**
 * zest-pw/utils/add-file-names.ts: `addFileNamesToResults` rewrites the `actualResult` list
 * of every step into `{fileName, image, body}` records, naming PNG screenshots after the
 * step. Reading `stepTitle.replace` on a step without a `stepTitle` throws, which `map`
 * passes on to the caller.
 */
module AddFileNames {
  import opened Wrappers
  import opened Text
  import opened Report

  predicate IsPng(item: ResultItem) {
    item.contentType == Some("image/png")
  }

  /** `att.name?.includes('ERROR')`, case-sensitive; an absent name does not. */
  predicate NamesError(item: ResultItem) {
    item.name.Some? && Contains(item.name.value, "ERROR")
  }

  function ErrorSuffix(item: ResultItem): string {
    if NamesError(item) then "_ERROR" else ""
  }

  /** The file name given to an item of step number `stepNumber`, or the TypeError. */
  function ItemFileName(item: ResultItem, stepTitle: Option<string>, stepNumber: nat): (r: Result<Option<string>>)
    ensures r.Throws? <==> IsPng(item) && stepTitle.None?
    ensures r.Throws? ==> r.reason == UndefinedReplaceError
    ensures !IsPng(item) ==> r == Ok(item.name)
    ensures IsPng(item) && stepTitle.Some? ==> r == Ok(Some(StepImageName(stepNumber, stepTitle.value, ErrorSuffix(item))))
  {
    if !IsPng(item) then Ok(item.name)
    else if stepTitle.None? then Throws(UndefinedReplaceError)
    else Ok(Some(StepImageName(stepNumber, stepTitle.value, ErrorSuffix(item))))
  }

  /** The callback of the inner `map`: only `fileName`, `image` and `body` survive. */
  function RenameItem(item: ResultItem, stepTitle: Option<string>, stepNumber: nat): (r: Result<ResultItem>)
    ensures r.Ok? <==> ItemFileName(item, stepTitle, stepNumber).Ok?
    ensures r.Ok? ==> r.value == ResultItem(None, None, ItemFileName(item, stepTitle, stepNumber).value, item.contentType, item.body)
  {
    match ItemFileName(item, stepTitle, stepNumber)
    case Throws(e) => Throws(e)
    case Ok(fileName) => Ok(ResultItem(None, None, fileName, item.contentType, item.body))
  }

  /** The callback of the step `map`: the step with its `actualResult` renamed, `[]` when absent. */
  function RenameStep(index: nat, step: StepRecord): Result<StepRecord> {
    var items := step.actualResult.GetOr([]);
    match MapIndexed(items, (_: nat, item: ResultItem) => RenameItem(item, step.stepTitle, index + 1))
    case Throws(e) => Throws(e)
    case Ok(renamed) => Ok(step.(actualResult := Some(renamed)))
  }

  /** The callback of the test `map`: the test with its steps renamed, `[]` when absent. */
  function RenameTest(index: nat, test: TestRecord): Result<TestRecord> {
    match MapIndexed(test.steps.GetOr([]), RenameStep)
    case Throws(e) => Throws(e)
    case Ok(steps) => Ok(test.(steps := Some(steps)))
  }

  /** `addFileNamesToResults(results)`. */
  function AddFileNamesToResults(results: Results): Result<Results> {
    match results.tests
    case None => Ok(results)
    case Some(tests) =>
      match MapIndexed(tests, RenameTest)
      case Throws(e) => Throws(e)
      case Ok(renamed) => Ok(results.(tests := Some(renamed)))
  }

  /** A step throws exactly when it has a PNG item and no `stepTitle`. */
  predicate StepThrows(step: StepRecord) {
    step.stepTitle.None? && step.actualResult.Some?
    && exists k :: 0 <= k < |step.actualResult.value| && IsPng(step.actualResult.value[k])
  }

  lemma RenameStepThrowsIff(index: nat, step: StepRecord)
    ensures RenameStep(index, step).Throws? <==> StepThrows(step)
    ensures RenameStep(index, step).Throws? ==> RenameStep(index, step).reason == UndefinedReplaceError
  {
    var items := step.actualResult.GetOr([]);
    var f := (_: nat, item: ResultItem) => RenameItem(item, step.stepTitle, index + 1);
    if StepThrows(step) {
      var k :| 0 <= k < |items| && IsPng(items[k]);
      assert f(k, items[k]).Throws?;
    }
  }

  /** Without a `tests` array the report comes back unchanged. */
  lemma NoTestsUnchanged(results: Results)
    requires results.tests.None?
    ensures AddFileNamesToResults(results) == Ok(results)
  {
  }

  /**
   * The renaming throws exactly when some step has a PNG item and no `stepTitle`, and then
   * with the TypeError of `undefined.replace`.
   */
  lemma AddFileNamesThrowsIff(results: Results)
    requires results.tests.Some?
    ensures var r := AddFileNamesToResults(results);
      var tests := results.tests.value;
      && (r.Throws? <==> exists i, j :: 0 <= i < |tests| && 0 <= j < |tests[i].steps.GetOr([])| && StepThrows(tests[i].steps.GetOr([])[j]))
      && (r.Throws? ==> r.reason == UndefinedReplaceError)
  {
    var tests := results.tests.value;
    forall i | 0 <= i < |tests|
      ensures RenameTest(i, tests[i]).Throws? <==> exists j :: 0 <= j < |tests[i].steps.GetOr([])| && StepThrows(tests[i].steps.GetOr([])[j])
      ensures RenameTest(i, tests[i]).Throws? ==> RenameTest(i, tests[i]).reason == UndefinedReplaceError
    {
      var steps := tests[i].steps.GetOr([]);
      forall j | 0 <= j < |steps| {
        RenameStepThrowsIff(j, steps[j]);
      }
    }
  }

  /** A renamed report keeps its run and the number and order of its tests, and changes only their steps. */
  lemma RenamedTests(results: Results, i: nat)
    requires results.tests.Some? && AddFileNamesToResults(results).Ok? && i < |results.tests.value|
    ensures var out := AddFileNamesToResults(results).value;
      && out.run == results.run && out.tests.Some? && |out.tests.value| == |results.tests.value|
      && RenameTest(i, results.tests.value[i]) == Ok(out.tests.value[i])
      && out.tests.value[i] == results.tests.value[i].(steps := out.tests.value[i].steps)
      && out.tests.value[i].steps.Some?
      && |out.tests.value[i].steps.value| == |results.tests.value[i].steps.GetOr([])|
  {
  }

  /** Each step keeps its place and every field but `actualResult`, which keeps its length. */
  lemma RenamedSteps(test: TestRecord, index: nat, j: nat)
    requires RenameTest(index, test).Ok? && j < |test.steps.GetOr([])|
    ensures var step := test.steps.GetOr([])[j];
      var out := RenameTest(index, test).value.steps.value[j];
      && out == step.(actualResult := out.actualResult)
      && out.actualResult.Some? && |out.actualResult.value| == |step.actualResult.GetOr([])|
      && RenameStep(j, step) == Ok(out)
  {
  }

  /**
   * Every renamed item is exactly `{fileName, image: contentType, body}`; a PNG is named
   * after its step number and `stepTitle`, anything else keeps its `name`.
   */
  lemma RenamedItems(step: StepRecord, j: nat, k: nat)
    requires RenameStep(j, step).Ok? && k < |step.actualResult.GetOr([])|
    ensures var item := step.actualResult.GetOr([])[k];
      var out := RenameStep(j, step).value.actualResult.value[k];
      && out.name.None? && out.contentType.None?
      && out.image == item.contentType && out.body == item.body
      && (!IsPng(item) ==> out.fileName == item.name)
      && (IsPng(item) ==> step.stepTitle.Some? && out.fileName == Some(StepImageName(j + 1, step.stepTitle.value, ErrorSuffix(item))))
  {
    var items := step.actualResult.GetOr([]);
    var f := (_: nat, item: ResultItem) => RenameItem(item, step.stepTitle, j + 1);
    assert f(k, items[k]).Ok?;
  }

  /** A PNG's file name ends in `_ERROR.png` exactly when the attachment's name contains `ERROR`. */
  lemma ErrorSuffixIff(n: nat, title: string, item: ResultItem)
    ensures EndsWith(StepImageName(n, title, ErrorSuffix(item)), "_ERROR.png") <==> NamesError(item)
  {
    var r := StepImageName(n, title, ErrorSuffix(item));
    if !NamesError(item) {
      var sanitised := UnderscoreSanitise(title);
      UnderscoreSanitiseAlphabet(title);
      assert r == ("step_" + NatToString(n) + "_" + sanitised) + ".png";
      var stem := "step_" + NatToString(n) + "_" + sanitised;
      assert r[|r| - 5] == stem[|stem| - 1];
      assert stem[|stem| - 1] == '_' || IsLowerAlnum(stem[|stem| - 1]);
      assert "_ERROR.png"[5] == 'R';
    }
  }
}
