/**
 * The report records that flow through the reporting pipeline: the transformer builds them,
 * the enricher rewrites their step lists, addFileNamesToResults rewrites each step's
 * `actualResult`, the JSON file stores them and the Zephyr reader strips title fields.
 * A field the JavaScript may leave `undefined` is an Option.
 */
module Report {
  import opened Wrappers
  import Text
  import Seqs

  /** The TypeError `undefined.replace(...)` raises, as `${error}` prints it. */
  const UndefinedReplaceError := "TypeError: Cannot read properties of undefined (reading 'replace')"

  /** The part of a runner error the report keeps. */
  datatype ErrorInfo = ErrorInfo(message: Option<string>, stack: Option<string>)

  datatype Location = Location(file: string, line: nat, column: nat)

  /** A step attachment: `body` is the base64 text of the payload, `bodySize` its length in bytes. */
  datatype Attachment = Attachment(
    name: string,
    contentType: string,
    path: Option<string>,
    body: Option<string>,
    bodySize: Option<nat>)

  /** One entry of a step's `actualResult` array. */
  datatype ResultItem = ResultItem(
    name: Option<string>,
    contentType: Option<string>,
    fileName: Option<string>,
    image: Option<string>,
    body: Option<string>)

  /** A step of the report, executed or placeholder. */
  datatype StepRecord = StepRecord(
    title: Option<string>,
    status: Option<string>,
    duration: Option<nat>,
    attachments: Option<seq<Attachment>>,
    error: Option<ErrorInfo>,
    stepTitle: Option<string>,
    actualResult: Option<seq<ResultItem>>)

  datatype TestRecord = TestRecord(
    title: Option<string>,
    location: Option<Location>,
    status: Option<string>,
    duration: Option<nat>,
    error: Option<ErrorInfo>,
    steps: Option<seq<StepRecord>>,
    testTitle: Option<string>)

  /** The fields of the runner's FullResult, copied unchanged into the report. */
  datatype RunInfo = RunInfo(status: string, startTime: nat, duration: nat)

  /** The whole report; `tests` is None when it is missing or not an array. */
  datatype Results = Results(run: RunInfo, tests: Option<seq<TestRecord>>)

  /**
   * The step planner the reporters import (`parsePlannedStepsFromFile(path, title)`),
   * which is not part of this model: a function from the resolved test-file path and
   * the test title to the planned step titles.
   */
  type Planner = (string, Option<string>) -> seq<string>

  /** JavaScript truthiness of an optional string: present and non-empty. */
  predicate Truthy(s: Option<string>) {
    s.Some? && s.value != ""
  }

  /** `s || ''`. */
  function OrEmpty(s: Option<string>): string {
    if Truthy(s) then s.value else ""
  }

  /** `${s}` in a template literal: an absent value prints as `undefined`. */
  function Show(s: Option<string>): string {
    match s
    case Some(v) => v
    case None => "undefined"
  }

  /** `${n}` for an optional number. */
  function ShowNat(n: Option<nat>): string {
    match n
    case Some(v) => Text.NatToString(v)
    case None => "undefined"
  }

  /** `path.isAbsolute(file) ? file : path.join(process.cwd(), file)`, without path normalisation. */
  function ResolveTestPath(cwd: string, file: string): string {
    if Text.StartsWith(file, "/") then file else cwd + "/" + file
  }

  /** `test.location?.file` is truthy. */
  predicate HasSourceFile(t: TestRecord) {
    t.location.Some? && t.location.value.file != ""
  }

  /** The planned step titles of a test: none without a source file, otherwise the planner's answer. */
  function PlannedStepsOf(t: TestRecord, cwd: string, planner: Planner): (r: seq<string>)
    ensures !HasSourceFile(t) ==> r == []
    ensures HasSourceFile(t) ==> r == planner(ResolveTestPath(cwd, t.location.value.file), t.title)
  {
    if !HasSourceFile(t) then [] else planner(ResolveTestPath(cwd, t.location.value.file), t.title)
  }

  /**
   * The screenshot file name both the formatter and addFileNamesToResults build:
   * `step_<n>_<title with [^A-Za-z0-9] turned into '_' and lower-cased><suffix>.png`.
   */
  function StepImageName(n: nat, title: string, suffix: string): (r: string)
    ensures Text.StartsWith(r, "step_") && Text.EndsWith(r, suffix + ".png")
    ensures '/' !in suffix ==> '/' !in r
  {
    Text.UnderscoreSanitiseAlphabet(title);
    "step_" + Text.NatToString(n) + "_" + Text.UnderscoreSanitise(title) + suffix + ".png"
  }

  /**
   * A step image name reads back: the text between `step_` and the next `_` is the step
   * number's decimal form and gives the number back, and the text between that `_` and
   * `<suffix>.png` is the sanitised title.
   */
  lemma StepImageNameParse(n: nat, title: string, suffix: string)
    ensures var r := StepImageName(n, title, suffix);
      var digits := Text.BeforeFirst(r[5..], '_');
      digits == Text.NatToString(n) && Text.DigitsValue(digits) == n
    ensures var r := StepImageName(n, title, suffix);
      var k := |Text.NatToString(n)|;
      6 + k <= |r| - |suffix| - 4 && r[6 + k..|r| - |suffix| - 4] == Text.UnderscoreSanitise(title)
  {
    var r := StepImageName(n, title, suffix);
    var d := Text.NatToString(n);
    var u := Text.UnderscoreSanitise(title);
    var tail := suffix + ".png";
    assert r == "step_" + (d + "_" + u) + tail by {
      Seqs.AppendAssoc("step_" + d + "_" + u, suffix, ".png");
      Seqs.AppendAssoc("step_", d + "_", u);
      Seqs.AppendAssoc("step_", d, "_");
    }
    Seqs.AppendSlices("step_", d + "_" + u, tail);
    Seqs.AppendSlices(d + "_", u, tail);
    Seqs.AppendAssoc(d + "_", u, tail);
    assert '_' !in d by {
      forall i | 0 <= i < |d| ensures d[i] != '_' { assert Text.IsAsciiDigit(d[i]); }
    }
    Text.BeforeFirstOfPrefix(r[5..], '_', d);
    Text.NatToStringRoundTrip(n);
  }

  /** Two step images of the same kind share a name only when their numbers and sanitised titles agree. */
  lemma StepImageNameInjective(n1: nat, title1: string, n2: nat, title2: string, suffix: string)
    requires StepImageName(n1, title1, suffix) == StepImageName(n2, title2, suffix)
    ensures n1 == n2
    ensures Text.UnderscoreSanitise(title1) == Text.UnderscoreSanitise(title2)
  {
    StepImageNameParse(n1, title1, suffix);
    StepImageNameParse(n2, title2, suffix);
  }
}
