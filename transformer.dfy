/**
 * zest-pw/utils/test-result-transformer.ts: turns the runner's end-of-run (test, result)
 * pairs into plain report records.
 */
module Transformer {
  import opened Wrappers
  import opened Report
  import PrintReport

  /** The runner's records, with the fields the transformer reads and some it drops. */
  datatype PwLocation = PwLocation(file: string, line: nat, column: nat)
  datatype PwError = PwError(message: Option<string>, stack: Option<string>, value: Option<string>, snippet: Option<string>)
  datatype PwAttachment = PwAttachment(name: string, contentType: string, path: Option<string>, body: Option<seq<bv8>>)
  datatype PwStep = PwStep(
    title: string,
    category: string,
    duration: nat,
    status: Option<string>,
    error: Option<PwError>,
    attachments: Option<seq<PwAttachment>>,
    steps: seq<PwStep>)
  datatype PwTestCase = PwTestCase(title: string, location: Option<PwLocation>)
  datatype PwResult = PwResult(status: string, duration: nat, retry: nat, error: Option<PwError>, steps: Option<seq<PwStep>>)
  datatype Executed = Executed(test: PwTestCase, result: PwResult)

  /** The base64 encoder of the payload bytes; the encoding itself is not part of this model. */
  type Encoder = seq<bv8> -> string

  /** `{...fullResult, tests: testResults.map(transformTestCase)}`. */
  function TransformTestResults(full: RunInfo, executed: seq<Executed>, encode: Encoder): (r: Results)
    ensures r.run == full
    ensures r.tests.Some? && |r.tests.value| == |executed|
    ensures forall i :: 0 <= i < |executed| ==>
      r.tests.value[i] == TransformTestCase(executed[i].test, executed[i].result, encode)
  {
    Results(full, Some(seq(|executed|, i requires 0 <= i < |executed| =>
      TransformTestCase(executed[i].test, executed[i].result, encode))))
  }

  /** One report test: title, location, status, duration and error of the final result, and its steps. */
  function TransformTestCase(test: PwTestCase, result: PwResult, encode: Encoder): (r: TestRecord)
    ensures r.title == Some(test.title) && r.status == Some(result.status) && r.duration == Some(result.duration)
    ensures r.location == TransformLocation(test.location) && r.error == TransformError(result.error)
    ensures r.testTitle.None?
    ensures r.steps.Some? && |r.steps.value| == |result.steps.GetOr([])|
    ensures forall i :: 0 <= i < |r.steps.value| ==> r.steps.value[i] == TransformStep(result.steps.value[i], encode)
  {
    var steps := result.steps.GetOr([]);
    TestRecord(
      Some(test.title),
      TransformLocation(test.location),
      Some(result.status),
      Some(result.duration),
      TransformError(result.error),
      Some(seq(|steps|, i requires 0 <= i < |steps| => TransformStep(steps[i], encode))),
      None)
  }

  /** Absent stays absent; otherwise only file, line and column are kept. */
  function TransformLocation(location: Option<PwLocation>): (r: Option<Location>)
    ensures r.None? <==> location.None?
    ensures r.Some? ==> r.value.file == location.value.file && r.value.line == location.value.line
                        && r.value.column == location.value.column
  {
    match location
    case None => None
    case Some(l) => Some(Location(l.file, l.line, l.column))
  }

  /** Absent stays absent; otherwise only message and stack are kept. */
  function TransformError(error: Option<PwError>): (r: Option<ErrorInfo>)
    ensures r.None? <==> error.None?
    ensures r.Some? ==> r.value.message == error.value.message && r.value.stack == error.value.stack
  {
    match error
    case None => None
    case Some(e) => Some(ErrorInfo(e.message, e.stack))
  }

  /** A report step; nested sub-steps and the category are not carried over. */
  function TransformStep(step: PwStep, encode: Encoder): (r: StepRecord)
    ensures r.title == Some(step.title) && r.duration == Some(step.duration)
    ensures r.status == Some(DetermineStepStatus(step))
    ensures r.error == TransformError(step.error)
    ensures r.attachments.Some? && |r.attachments.value| == |step.attachments.GetOr([])|
    ensures forall i :: 0 <= i < |r.attachments.value| ==>
      r.attachments.value[i] == TransformAttachment(step.attachments.value[i], encode)
    ensures r.stepTitle.None? && r.actualResult.None?
  {
    var atts := step.attachments.GetOr([]);
    StepRecord(
      Some(step.title),
      Some(DetermineStepStatus(step)),
      Some(step.duration),
      Some(seq(|atts|, i requires 0 <= i < |atts| => TransformAttachment(atts[i], encode))),
      TransformError(step.error),
      None,
      None)
  }

  /** An error on the step always means 'failed'; otherwise the runner's status, or 'passed' when it gave none. */
  function DetermineStepStatus(step: PwStep): (r: string)
    ensures r != ""
    ensures step.error.Some? ==> r == "failed"
    ensures step.error.None? && Truthy(step.status) ==> r == step.status.value
    ensures step.error.None? && !Truthy(step.status) ==> r == "passed"
  {
    if step.error.Some? then "failed"
    else if Truthy(step.status) then step.status.value
    else "passed"
  }

  /** Name, content type and path are copied; a payload becomes its base64 text plus its byte count. */
  function TransformAttachment(att: PwAttachment, encode: Encoder): (r: Attachment)
    ensures r.name == att.name && r.contentType == att.contentType && r.path == att.path
    ensures r.body.Some? <==> att.body.Some?
    ensures r.bodySize.Some? <==> att.body.Some?
    ensures att.body.Some? ==> r.body.value == encode(att.body.value) && r.bodySize.value == |att.body.value|
  {
    match att.body
    case None => Attachment(att.name, att.contentType, att.path, None, None)
    case Some(bytes) => Attachment(att.name, att.contentType, att.path, Some(encode(bytes)), Some(|bytes|))
  }

  /**
   * The transformer and the console printer (scripts/print-report.js) derive a step's status
   * with opposite priorities: here an error wins over the runner's status, there the runner's
   * status wins over an error. They agree exactly when there is no error, when the runner
   * gave no status, or when that status is already 'failed'.
   */
  lemma StepStatusPriorities(step: PwStep)
    ensures DetermineStepStatus(step) == PrintReport.InferStepStatus(step.status, step.error.Some?)
            <==> step.error.None? || !Truthy(step.status) || step.status.value == "failed"
  {
  }

  /** A transformed report has one test per executed pair, and every step carries a non-empty status. */
  lemma TransformedStatusesPresent(full: RunInfo, executed: seq<Executed>, encode: Encoder, i: nat, j: nat)
    requires i < |executed|
    requires executed[i].result.steps.Some? && j < |executed[i].result.steps.value|
    ensures var t := TransformTestResults(full, executed, encode).tests.value[i];
      && t.steps.value[j].status.Some? && t.steps.value[j].status.value != ""
      && t.steps.value[j].title == Some(executed[i].result.steps.value[j].title)
  {
  }
}
