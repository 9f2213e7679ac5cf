/**
 * zest-pw/zephyr-api/zephyr.api.ts: each finished test adds one `{actualResult, statusName}`
 * entry to a module-level buffer keyed by its Zephyr test case key (`createBuffer`), and
 * `updateTestResult` later sends every key's entries to that test case's execution. The
 * HTTP calls are parameters: the test case id a key resolves to, and the execution list of
 * the test cycle (None when the request or its JSON failed).
 */
module Zephyr {
  import opened Wrappers
  import opened Text
  import opened Report

  const PassedText := " - Test passed successfully"
  const FailedText := " - Test failed: "
  const UnknownError := "Unknown error"
  const ImageOpen := "<br><br><img src=\"data:image/png;base64,"
  const ImageClose := "\" alt=\"Screenshot\" style=\"max-width: 900px; height: auto; border: 1px solid #ccc; margin: 10px 0;\">"
  /** The TypeError `undefined.split(...)` raises. */
  const UndefinedSplitError := "TypeError: Cannot read properties of undefined (reading 'split')"

  /** The part of Playwright's `testInfo` that `createBuffer` reads. */
  datatype TestInfo = TestInfo(titlePath: seq<string>, title: string, status: string, error: Option<ErrorInfo>)

  /** One buffered step result. */
  datatype StepData = StepData(actualResult: string, statusName: string)

  /** An entry of the test cycle's execution list: its key and its test case id. */
  datatype Execution = Execution(key: string, testCaseId: Option<int>)

  /** One `PUT testexecutions/<key>/teststeps` request. */
  datatype StepsUpdate = StepsUpdate(path: string, steps: seq<StepData>)

  /** `titlePath[1].split(':')[0]`: the title up to its first colon. */
  function TestCaseKey(title: string): (r: string)
    ensures StartsWith(title, r) && ':' !in r
    ensures ':' !in title ==> r == title
    ensures ':' in title ==> title[|r|] == ':'
  {
    BeforeFirst(title, ':')
  }

  /** The key is the title up to the position of its first colon. */
  lemma TestCaseKeyAt(title: string, k: nat)
    requires k < |title| && title[k] == ':' && ':' !in title[..k]
    ensures TestCaseKey(title) == title[..k]
  {
  }

  /** `TC-001: Check the title` is filed under `TC-001`. */
  lemma TestCaseKeyExample()
    ensures TestCaseKey("TC-001: Check the title") == "TC-001"
  {
    var t := "TC-001: Check the title";
    assert t[..6] == "TC-001";
    TestCaseKeyAt(t, 6);
  }

  /** `testInfo.status === 'passed' ? 'Pass' : 'Fail'` */
  function StatusName(status: string): (r: string)
    ensures r == "Pass" <==> status == "passed"
    ensures r == "Fail" <==> status != "passed"
  {
    if status == "passed" then "Pass" else "Fail"
  }

  /** The text after the title: success, or the error message (`Unknown error` when it is empty). */
  function Outcome(info: TestInfo): string {
    if StatusName(info.status) == "Pass" then PassedText
    else
      var message := if info.error.Some? then info.error.value.message else None;
      FailedText + (if Truthy(message) then message.value else UnknownError)
  }

  /** The screenshot tag, present only when the screenshot produced a non-empty base64 text. */
  function ImageTag(screenshot: Option<string>): (r: string)
    ensures r == "" <==> !Truthy(screenshot)
    ensures Truthy(screenshot) ==>
      && StartsWith(r, ImageOpen) && EndsWith(r, ImageClose)
      && |r| == |ImageOpen| + |screenshot.value| + |ImageClose|
      && r[|ImageOpen|..|r| - |ImageClose|] == screenshot.value
  {
    if Truthy(screenshot) then ImageOpen + screenshot.value + ImageClose else ""
  }

  /** The entry `createBuffer` adds for a test, given its screenshot (None when taking it threw). */
  function StepDataOf(info: TestInfo, screenshot: Option<string>): (r: StepData)
    ensures r.statusName == StatusName(info.status)
    ensures StartsWith(r.actualResult, info.title + Outcome(info))
    ensures r.actualResult == info.title + Outcome(info) <==> !Truthy(screenshot)
    ensures r.actualResult[|info.title + Outcome(info)|..] == ImageTag(screenshot)
  {
    StepData(info.title + Outcome(info) + ImageTag(screenshot), StatusName(info.status))
  }

  /** A failed test without an error message is reported as `Unknown error`. */
  lemma FailureWithoutMessage(info: TestInfo, screenshot: Option<string>)
    requires info.status != "passed"
    requires info.error.None? || !Truthy(info.error.value.message)
    ensures StartsWith(StepDataOf(info, screenshot).actualResult, info.title + FailedText + UnknownError)
  {
  }

  /** The buffer after adding `data` under `key`: appended to an existing list, or a new list. */
  function Pushed(entries: map<string, seq<StepData>>, key: string, data: StepData): map<string, seq<StepData>> {
    if key in entries then entries[key := entries[key] + [data]] else entries[key := [data]]
  }

  /**
   * Adding keeps every earlier entry of the key in place and puts the new one last; a new key
   * gets a list of one; every other key is untouched.
   */
  lemma PushedEntries(entries: map<string, seq<StepData>>, key: string, data: StepData, other: string)
    ensures var after := Pushed(entries, key, data);
      && key in after
      && (key in entries ==> after[key] == entries[key] + [data])
      && (key !in entries ==> after[key] == [data])
      && (other != key ==> (other in after <==> other in entries) && (other in entries ==> after[other] == entries[other]))
      && after.Keys == entries.Keys + {key}
  {
  }

  /** `testExecution = data.values.find(e => e.testCase.id === testCaseId)`, then its key or null. */
  function FindExecution(values: seq<Execution>, testCaseId: Option<int>): (r: Option<string>)
    ensures r.Some? ==>
      exists i :: 0 <= i < |values| && values[i].testCaseId == testCaseId && values[i].key == r.value
        && (forall j :: 0 <= j < i ==> values[j].testCaseId != testCaseId)
    ensures r.None? <==> forall i :: 0 <= i < |values| ==> values[i].testCaseId != testCaseId
  {
    if values == [] then None
    else if values[0].testCaseId == testCaseId then Some(values[0].key)
    else
      var r := FindExecution(values[1..], testCaseId);
      if r.Some? then
        var i :| 0 <= i < |values| - 1 && values[1..][i].testCaseId == testCaseId && values[1..][i].key == r.value
          && forall j :: 0 <= j < i ==> values[1..][j].testCaseId != testCaseId;
        assert values[i + 1].testCaseId == testCaseId && values[i + 1].key == r.value;
        assert forall j :: 0 <= j < i + 1 ==> values[j].testCaseId != testCaseId by {
          forall j | 0 <= j < i + 1
            ensures values[j].testCaseId != testCaseId
          {
            if j > 0 {
              assert values[j] == values[1..][j - 1];
            }
          }
        }
        r
      else
        assert forall i :: 1 <= i < |values| ==> values[i] == values[1..][i - 1];
        r
  }

  /** `getTestExecutionKey(testCaseId)`: a failed request is caught and gives null. */
  function GetTestExecutionKey(executions: Option<seq<Execution>>, testCaseId: Option<int>): (r: Option<string>)
    ensures executions.None? ==> r.None?
    ensures executions.Some? ==> r == FindExecution(executions.value, testCaseId)
  {
    match executions
    case None => None
    case Some(values) => FindExecution(values, testCaseId)
  }

  /** The request path of `updateTestSteps`; a null key is sent as `null`. */
  function StepsPath(executionKey: Option<string>): string {
    "testexecutions/" + (if executionKey.Some? then executionKey.value else "null") + "/teststeps"
  }

  /** Keys `for...in` visits: each once, in insertion order. */
  ghost predicate Distinct(order: seq<string>) {
    forall i, j :: 0 <= i < j < |order| ==> order[i] != order[j]
  }

  /** The module-level `buffer` object of zephyr.api.ts. */
  class ZephyrBuffer {
    var entries: map<string, seq<StepData>>
    /** The order in which the keys were first added. */
    var order: seq<string>

    ghost predicate Valid()
      reads this
    {
      && Distinct(order)
      && (forall k :: k in entries <==> k in order)
      && (forall k :: k in entries ==> entries[k] != [])
    }

    /** `let buffer = {}` */
    constructor()
      ensures Valid() && entries == map[] && order == []
    {
      entries := map[];
      order := [];
    }

    /**
     * `createBuffer(page, testInfo)`: files the test's entry under its test case key. Without
     * a second title path element it throws and leaves the buffer as it was.
     */
    method CreateBuffer(info: TestInfo, screenshot: Option<string>) returns (r: Result<string>)
      requires Valid()
      modifies this
      ensures Valid()
      ensures |info.titlePath| < 2 ==> r == Throws(UndefinedSplitError) && entries == old(entries) && order == old(order)
      ensures |info.titlePath| >= 2 ==>
        && r == Ok(TestCaseKey(info.titlePath[1]))
        && entries == Pushed(old(entries), r.value, StepDataOf(info, screenshot))
        && order == old(order) + (if r.value in old(entries) then [] else [r.value])
    {
      if |info.titlePath| < 2 {
        return Throws(UndefinedSplitError);
      }
      var key := TestCaseKey(info.titlePath[1]);
      var data := StepDataOf(info, screenshot);
      if key in entries {
        entries := entries[key := entries[key] + [data]];
      } else {
        entries := entries[key := [data]];
        order := order + [key];
      }
      r := Ok(key);
    }

    /**
     * `updateTestResult()`: nothing unless UPDATE_TEST_RESULTS is `true`; otherwise one
     * request per key, in insertion order, with that key's entries.
     */
    method UpdateTestResult(updateEnabled: Option<string>, testCaseIdOf: string -> Option<int>, executions: Option<seq<Execution>>)
      returns (updates: seq<StepsUpdate>)
      requires Valid()
      ensures updateEnabled != Some("true") ==> updates == []
      ensures updateEnabled == Some("true") ==>
        && |updates| == |order|
        && forall i :: 0 <= i < |order| ==>
          updates[i] == StepsUpdate(StepsPath(GetTestExecutionKey(executions, testCaseIdOf(order[i]))), entries[order[i]])
    {
      if updateEnabled != Some("true") {
        return [];
      }
      updates := [];
      var i := 0;
      while i < |order|
        invariant 0 <= i <= |order|
        invariant |updates| == i
        invariant forall k :: 0 <= k < i ==>
          updates[k] == StepsUpdate(StepsPath(GetTestExecutionKey(executions, testCaseIdOf(order[k]))), entries[order[k]])
      {
        var key := order[i];
        var testCaseId := testCaseIdOf(key);
        var executionKey := GetTestExecutionKey(executions, testCaseId);
        updates := updates + [StepsUpdate(StepsPath(executionKey), entries[key])];
        i := i + 1;
      }
    }
  }

  /** A test case with no matching execution still gets its request, sent to `testexecutions/null/teststeps`. */
  lemma UnmatchedKeyGoesToNull(executions: Option<seq<Execution>>, testCaseId: Option<int>)
    requires executions.None? || forall i :: 0 <= i < |executions.value| ==> executions.value[i].testCaseId != testCaseId
    ensures StepsPath(GetTestExecutionKey(executions, testCaseId)) == "testexecutions/null/teststeps"
  {
  }
}
