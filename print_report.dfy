/**
 * scripts/print-report.js: the console printer for the runner's JSON report.
 * Modelled here: the colour helper, duration formatting, padding, the status badges,
 * the choice of the final attempt and its status, the step-status inference and the
 * printing of one test entry with its step lines and planned-but-not-run placeholders.
 * Console output is the sequence of strings handed to `console.log`, one per call.
 */
module PrintReport {
  import opened Wrappers
  import opened Text
  import Seqs

  const Reset: string := "\U{1B}[0m"
  const Bold: string := "\U{1B}[1m"
  const Dim: string := "\U{1B}[2m"
  const Red: string := "\U{1B}[31m"
  const Green: string := "\U{1B}[32m"
  const Yellow: string := "\U{1B}[33m"
  const Blue: string := "\U{1B}[34m"
  const Magenta: string := "\U{1B}[35m"
  const Cyan: string := "\U{1B}[36m"
  const Gray: string := "\U{1B}[90m"

  /** `color(text, c)`: the text between the colour code and the reset code. */
  function Color(text: string, code: string): string {
    code + text + Reset
  }

  /** A coloured text starts with its colour code, and the text between the codes can be recovered. */
  lemma ColorInjective(a: string, b: string, code: string)
    requires Color(a, code) == Color(b, code)
    ensures a == b
  {
    assert a == Color(a, code)[|code|..|Color(a, code)| - |Reset|];
  }

  // ---------------------------------------------------------------------------
  // formatDuration

  /** A duration split into hours, minutes, seconds and milliseconds. */
  datatype Clock = Clock(h: nat, m: nat, sec: nat, millis: nat)

  predicate ValidClock(c: Clock) {
    c.m < 60 && c.sec < 60 && c.millis < 1000
  }

  /** The number of milliseconds a clock stands for. */
  function ClockValue(c: Clock): nat {
    (c.h * 3600 + c.m * 60 + c.sec) * 1000 + c.millis
  }

  /**
   * The decomposition of `formatDuration`: `s = floor(ms / 1000)`, `h = floor(s / 3600)`,
   * `m = floor((s % 3600) / 60)`, `sec = s % 60` and `ms % 1000`.
   */
  function Decompose(ms: nat): (c: Clock)
    ensures ValidClock(c)
    ensures c.h * 3600 + c.m * 60 + c.sec == ms / 1000 && c.millis == ms % 1000
    ensures ClockValue(c) == ms
  {
    var s := ms / 1000;
    var c := Clock(s / 3600, (s % 3600) / 60, s % 60, ms % 1000);
    DecomposeSeconds(s);
    c
  }

  lemma DecomposeSeconds(s: nat)
    ensures (s % 3600) / 60 < 60
    ensures (s / 3600) * 3600 + ((s % 3600) / 60) * 60 + s % 60 == s
  {
    var q := s / 3600;
    var r := s % 3600;
    assert s == q * 3600 + r;
    assert r == (r / 60) * 60 + r % 60;
    ModUnique(s, q * 60 + r / 60, r % 60, 60);
  }

  /** The quotient and remainder by 60, 1000 or 3600 are the unique `k`, `r < d` with `n == k * d + r`. */
  lemma ModUnique(n: nat, k: nat, r: nat, d: nat)
    requires d == 60 || d == 1000 || d == 3600
    requires r < d && n == k * d + r
    ensures n % d == r && n / d == k
  {
  }

  /** A valid clock is the decomposition of the milliseconds it stands for. */
  lemma DecomposeClockValue(c: Clock)
    requires ValidClock(c)
    ensures Decompose(ClockValue(c)) == c
  {
    var ms := ClockValue(c);
    var s := c.h * 3600 + c.m * 60 + c.sec;
    ModUnique(ms, s, c.millis, 1000);
    ModUnique(s, c.h, c.m * 60 + c.sec, 3600);
    ModUnique(c.m * 60 + c.sec, c.m, c.sec, 60);
    ModUnique(s, c.h * 60 + c.m, c.sec, 60);
  }

  /** The seconds part `sec.mmm s`, milliseconds zero-padded to three digits. */
  function SecondsPart(c: Clock): string {
    NatToString(c.sec) + "." + PadStart(NatToString(c.millis), 3, '0') + "s"
  }

  /** Whether `formatDuration` prints the seconds part: `sec || (!h && !m)`. */
  predicate ShowsSeconds(c: Clock) {
    c.sec > 0 || (c.h == 0 && c.m == 0)
  }

  /** The `parts` array of `formatDuration`: hours and minutes when non-zero, then the seconds part. */
  function DurationParts(c: Clock): (parts: seq<string>)
    ensures |parts| > 0
    ensures forall i :: 0 <= i < |parts| ==> |parts[i]| > 0 && IsAsciiDigit(parts[i][0])
    ensures EndsWith(parts[|parts| - 1], "s") <==> ShowsSeconds(c)
  {
    (if c.h > 0 then [NatToString(c.h) + "h"] else [])
    + (if c.m > 0 then [NatToString(c.m) + "m"] else [])
    + (if ShowsSeconds(c) then [SecondsPart(c)] else [])
  }

  /**
   * The parts in full: `<h>h` first exactly when h > 0, `<m>m` next exactly when m > 0,
   * the seconds part last exactly when it is shown, and nothing else.
   */
  lemma DurationPartsExact(c: Clock)
    ensures var parts := DurationParts(c);
      && |parts| == (if c.h > 0 then 1 else 0) + (if c.m > 0 then 1 else 0) + (if ShowsSeconds(c) then 1 else 0)
      && (c.h > 0 ==> parts[0] == NatToString(c.h) + "h")
      && (c.m > 0 ==> parts[if c.h > 0 then 1 else 0] == NatToString(c.m) + "m")
      && (ShowsSeconds(c) ==> parts[|parts| - 1] == SecondsPart(c))
  {
  }

  /** `formatDuration(ms)`: `-` for a missing duration, otherwise the parts joined by spaces. */
  function FormatDuration(ms: Option<nat>): (r: string)
    ensures ms.None? <==> r == "-"
    ensures ms.Some? ==> |r| > 0 && IsAsciiDigit(r[0])
  {
    match ms
    case None => "-"
    case Some(n) =>
      var parts := DurationParts(Decompose(n));
      JoinEnds(parts, " ");
      Join(parts, " ")
  }

  /**
   * The printed duration is the parts of its decomposition joined by single spaces:
   * `<h>h <m>m <sec>.<mmm>s`, each part present as DurationParts says.
   */
  lemma FormatDurationText(ms: nat)
    ensures FormatDuration(Some(ms)) == Join(DurationParts(Decompose(ms)), " ")
  {
  }

  /** The printed duration ends in `s` exactly when the seconds part is shown. */
  lemma {:induction false} FormatDurationSecondsShown(ms: nat)
    ensures EndsWith(FormatDuration(Some(ms)), "s") <==> ShowsSeconds(Decompose(ms))
  {
    var parts := DurationParts(Decompose(ms));
    var last := parts[|parts| - 1];
    JoinEnds(parts, " ");
    var r := Join(parts, " ");
    assert r[|r| - 1] == last[|last| - 1];
  }

  /** A duration under one second prints as `0.mmm s`. */
  lemma FormatDurationUnderOneSecond(ms: nat)
    requires ms < 1000
    ensures FormatDuration(Some(ms)) == "0." + PadStart(NatToString(ms), 3, '0') + "s"
  {
    var c := Decompose(ms);
    assert c == Clock(0, 0, 0, ms);
    ZeroSecondsText(PadStart(NatToString(ms), 3, '0'));
    assert DurationParts(c) == [SecondsPart(c)];
  }

  lemma ZeroSecondsText(millis: string)
    ensures NatToString(0) + "." + millis + "s" == "0." + millis + "s"
  {
    assert NatToString(0) == "0";
  }

  lemma ZeroMillisPadded()
    ensures PadStart(NatToString(0), 3, '0') == "000"
  {
    assert NatToString(0) == "0";
    assert Repeat('0', 2) == "00";
  }

  lemma ZeroMillisText(millis: string)
    requires millis == "000"
    ensures "0." + millis + "s" == "0.000s"
  {
  }

  /** Zero milliseconds print as `0.000s`. */
  lemma FormatDurationZero()
    ensures FormatDuration(Some(0)) == "0.000s"
  {
    FormatDurationUnderOneSecond(0);
    ZeroMillisPadded();
    ZeroMillisText(PadStart(NatToString(0), 3, '0'));
  }

  /** One minute and a half second prints as `1m`: the milliseconds are dropped with the zero seconds. */
  lemma FormatDurationDropsRemainder()
    ensures FormatDuration(Some(60500)) == "1m"
  {
    assert Decompose(60500) == Clock(0, 1, 0, 500) by {
      DecomposeClockValue(Clock(0, 1, 0, 500));
    }
    assert NatToString(1) == "1";
  }

  /** A whole hour prints as `1h`: no minutes part and no seconds part. */
  lemma FormatDurationOneHour()
    ensures FormatDuration(Some(3600000)) == "1h"
  {
    DecomposeOneHour();
    OneHourParts();
  }

  lemma DecomposeOneHour()
    ensures Decompose(3600000) == Clock(1, 0, 0, 0)
  {
    DecomposeClockValue(Clock(1, 0, 0, 0));
  }

  lemma OneHourParts()
    ensures DurationParts(Clock(1, 0, 0, 0)) == ["1h"]
  {
    var c := Clock(1, 0, 0, 0);
    assert !ShowsSeconds(c);
    assert DurationParts(c) == [NatToString(1) + "h"];
    assert NatToString(1) + "h" == "1h" by {
      assert NatToString(1) == "1";
    }
  }

  // ---------------------------------------------------------------------------
  // padRight

  /** `padRight(s, len)`: `s` followed by as many spaces as make it `len` long. */
  function PadRight(s: string, len: int): (r: string)
    ensures StartsWith(r, s)
    ensures |r| == if |s| >= len then |s| else len
    ensures forall i :: |s| <= i < |r| ==> r[i] == ' '
    ensures |s| >= len ==> r == s
  {
    if |s| >= len then s else s + Repeat(' ', len - |s|)
  }

  /** Padding a padded string again changes nothing. */
  lemma PadRightIdempotent(s: string, len: int)
    ensures PadRight(PadRight(s, len), len) == PadRight(s, len)
  {
  }

  // ---------------------------------------------------------------------------
  // Badges

  predicate IsKnownStatus(status: string) {
    status in {"passed", "failed", "skipped", "flaky", "timedOut"}
  }

  /** `statusBadge(status)`: a coloured symbol and word for the five known statuses, otherwise the status itself in blue. */
  function StatusBadge(status: Option<string>): (r: string)
    ensures status.Some? && IsKnownStatus(status.value) ==> !StartsWith(r, Blue)
    ensures status.Some? && status.value != "" && !IsKnownStatus(status.value) ==> r == Color(status.value, Blue)
    ensures (status.None? || status.value == "") ==> r == Color("unknown", Blue)
  {
    KnownBadgesAreNotBlue();
    match status
    case None => Color("unknown", Blue)
    case Some(s) =>
      match s
      case "passed" => Color("✅ passed", Green)
      case "failed" => Color("❌ failed", Red)
      case "skipped" => Color("↷ skipped", Gray)
      case "flaky" => Color("⚠ flaky", Yellow)
      case "timedOut" => Color("⏳ timeout", Yellow)
      case _ => Color(if s != "" then s else "unknown", Blue)
  }

  /** The colours of the five known badges differ from blue in their fourth character. */
  lemma KnownBadgesAreNotBlue()
    ensures forall t {:trigger Color(t, Green)} :: !StartsWith(Color(t, Green), Blue)
    ensures forall t {:trigger Color(t, Red)} :: !StartsWith(Color(t, Red), Blue)
    ensures forall t {:trigger Color(t, Gray)} :: !StartsWith(Color(t, Gray), Blue)
    ensures forall t {:trigger Color(t, Yellow)} :: !StartsWith(Color(t, Yellow), Blue)
  {
    forall t ensures !StartsWith(Color(t, Green), Blue) && !StartsWith(Color(t, Red), Blue)
      && !StartsWith(Color(t, Gray), Blue) && !StartsWith(Color(t, Yellow), Blue)
    {
      assert Color(t, Green)[3] != Blue[3];
      assert Color(t, Red)[3] != Blue[3];
      assert Color(t, Gray)[3] != Blue[3];
      assert Color(t, Yellow)[3] != Blue[3];
    }
  }

  /** Distinct non-empty statuses get distinct badges. */
  lemma StatusBadgeInjective(a: string, b: string)
    requires a != "" && b != ""
    requires StatusBadge(Some(a)) == StatusBadge(Some(b))
    ensures a == b
  {
    if !IsKnownStatus(a) && !IsKnownStatus(b) {
      ColorInjective(a, b, Blue);
    } else if IsKnownStatus(a) && IsKnownStatus(b) {
      var ra := StatusBadge(Some(a));
      assert ra[3] == StatusBadge(Some(b))[3];
      assert ra[5] == StatusBadge(Some(b))[5];
    }
  }

  predicate IsKnownStepStatus(status: string) {
    status in {"passed", "failed", "skipped", "timedOut"}
  }

  /** The gray dot printed for steps of any other status and for planned placeholders. */
  const Dot: string := Color("•", Gray)

  /** `stepStatusBadge(status)`: a coloured mark for four statuses, the gray dot for every other. */
  function StepStatusBadge(status: string): (r: string)
    ensures r == Dot <==> !IsKnownStepStatus(status)
  {
    assert Color("✓", Green)[3] != Dot[3] && Color("✗", Red)[3] != Dot[3] && Color("⏳", Yellow)[3] != Dot[3];
    assert Color("↷", Gray)[5] != Dot[5];
    match status
    case "passed" => Color("✓", Green)
    case "failed" => Color("✗", Red)
    case "skipped" => Color("↷", Gray)
    case "timedOut" => Color("⏳", Yellow)
    case _ => Dot
  }

  // ---------------------------------------------------------------------------
  // printTests: one test entry of the JSON report

  /** A step of an attempt, with the fields the printer reads; `hasError` is the truthiness of `step.error`. */
  datatype ReportStep = ReportStep(title: Option<string>, duration: Option<nat>, status: Option<string>, hasError: bool)

  /** One attempt (retry) of a test. */
  datatype Attempt = Attempt(status: Option<string>, duration: Option<nat>, steps: Option<seq<ReportStep>>)

  /** A test of a spec, run in one project, with its attempts. */
  datatype ReportTest = ReportTest(
    projectName: Option<string>,
    projectId: Option<string>,
    expectedStatus: Option<string>,
    results: Option<seq<Attempt>>)

  /** The attempt whose outcome is reported: the last one, or an empty record when there is none. */
  function FinalAttempt(test: ReportTest): (r: Attempt)
    ensures test.results.Some? && |test.results.value| > 0 ==> r == test.results.value[|test.results.value| - 1]
    ensures test.results.None? || |test.results.value| == 0 ==> r == Attempt(None, None, None)
  {
    var results := test.results.GetOr([]);
    if |results| > 0 then results[|results| - 1] else Attempt(None, None, None)
  }

  /** `final.status || expected || 'unknown'`. */
  function TestStatus(test: ReportTest): (r: string)
    ensures r != ""
    ensures var f := FinalAttempt(test);
      && (f.status.Some? && f.status.value != "" ==> r == f.status.value)
      && ((!(f.status.Some? && f.status.value != "") && test.expectedStatus.Some? && test.expectedStatus.value != "")
          ==> r == test.expectedStatus.value)
      && ((!(f.status.Some? && f.status.value != "") && !(test.expectedStatus.Some? && test.expectedStatus.value != ""))
          ==> r == "unknown")
  {
    var f := FinalAttempt(test);
    if f.status.Some? && f.status.value != "" then f.status.value
    else if test.expectedStatus.Some? && test.expectedStatus.value != "" then test.expectedStatus.value
    else "unknown"
  }

  /** A test with attempts is reported with the outcome of its last attempt, when that has a status. */
  lemma {:induction false} RetriedTestReportsLastAttempt(test: ReportTest, earlier: seq<Attempt>, last: Attempt)
    requires test.results == Some(earlier + [last])
    requires last.status.Some? && last.status.value != ""
    ensures TestStatus(test) == last.status.value
  {
    assert FinalAttempt(test) == last;
  }

  /**
   * The printer's step status: `step.status || (step.error ? 'failed' : undefined) || 'passed'`.
   * An explicit status wins over an error.
   */
  function InferStepStatus(status: Option<string>, hasError: bool): (r: string)
    ensures r != ""
    ensures status.Some? && status.value != "" ==> r == status.value
    ensures !(status.Some? && status.value != "") ==> (r == "failed" <==> hasError)
    ensures !(status.Some? && status.value != "") ==> (r == "passed" <==> !hasError)
  {
    if status.Some? && status.value != "" then status.value
    else if hasError then "failed"
    else "passed"
  }

  /** The step label: green `passed`, red `failed`, otherwise the status in gray. */
  function StepLabel(status: string): string {
    if status == "passed" then Color("passed", Green)
    else if status == "failed" then Color("failed", Red)
    else Color(status, Gray)
  }

  /** The line of an executed step: badge, label, title (or `step`) and duration. */
  function StepLine(step: ReportStep): string {
    var status := InferStepStatus(step.status, step.hasError);
    var title := if step.title.Some? && step.title.value != "" then step.title.value else "step";
    "      " + StepStatusBadge(status) + " " + StepLabel(status) + "  " + title + " " + Color(FormatDuration(step.duration), Dim)
  }

  /** The line of a planned step that did not run: a gray dot and the dimmed title. */
  function PlaceholderLine(title: string): string {
    "      " + Dot + " " + Color(title, Dim)
  }

  /** The header line of a test: badge, spec title, project tag when there is a project, duration. */
  function TestHeaderLine(specTitle: string, test: ReportTest): string {
    var project :=
      if test.projectName.Some? && test.projectName.value != "" then test.projectName.value
      else if test.projectId.Some? && test.projectId.value != "" then test.projectId.value
      else "";
    "  " + StatusBadge(Some(TestStatus(test))) + "  " + Color(specTitle, Bold) + " "
    + (if project != "" then Color("[" + project + "]", Dim) else "")
    + "  " + Color(FormatDuration(FinalAttempt(test).duration), Dim)
  }

  /** `plannedByTitle.get(specTitle) || []`. */
  function PlannedFor(plannedByTitle: map<string, seq<string>>, specTitle: string): seq<string> {
    if specTitle in plannedByTitle then plannedByTitle[specTitle] else []
  }

  /**
   * Prints the header of a test, one line per step of its final attempt, in order, and one
   * placeholder per planned step beyond the number of executed steps: the placeholder on
   * line `1 + k` is planned step `k`.
   */
  method PrintTestEntry(specTitle: string, test: ReportTest, plannedByTitle: map<string, seq<string>>)
    returns (lines: seq<string>)
    ensures var steps := FinalAttempt(test).steps.GetOr([]);
      var planned := PlannedFor(plannedByTitle, specTitle);
      && |lines| == 1 + (if |planned| > |steps| then |planned| else |steps|)
      && lines[0] == TestHeaderLine(specTitle, test)
      && (forall i :: 0 <= i < |steps| ==> lines[1 + i] == StepLine(steps[i]))
      && (forall k :: |steps| <= k < |planned| ==> lines[1 + k] == PlaceholderLine(planned[k]))
  {
    var steps := FinalAttempt(test).steps.GetOr([]);
    var planned := PlannedFor(plannedByTitle, specTitle);
    lines := PrintEntryLines(TestHeaderLine(specTitle, test), steps, planned);
  }

  /**
   * The lines of one entry below a given header: the header on line 0, executed step `i` on
   * line `1 + i`, and planned step `k` on line `1 + k` when it did not run.
   */
  method PrintEntryLines(header: string, steps: seq<ReportStep>, planned: seq<string>)
    returns (lines: seq<string>)
    ensures |lines| == 1 + (if |planned| > |steps| then |planned| else |steps|)
    ensures lines[0] == header
    ensures forall i {:trigger StepLine(steps[i])} :: 0 <= i < |steps| ==> lines[1 + i] == StepLine(steps[i])
    ensures forall k {:trigger PlaceholderLine(planned[k])} :: |steps| <= k < |planned| ==> lines[1 + k] == PlaceholderLine(planned[k])
  {
    var stepLines := PrintSteps(steps);
    var placeholders := PrintPlaceholders(planned, |steps|);
    lines := [header] + stepLines + placeholders;
    forall i | 0 <= i < |steps|
      ensures lines[1 + i] == StepLine(steps[i])
    {
      assert lines[1 + i] == stepLines[i];
    }
    forall k | |steps| <= k < |planned|
      ensures lines[1 + k] == PlaceholderLine(planned[k])
    {
      assert lines[1 + k] == placeholders[k - |steps|];
    }
  }

  /** The lines of `steps`, one per step, in order: what the step loop of `printTests` prints. */
  function StepLines(steps: seq<ReportStep>): (r: seq<string>)
    ensures |r| == |steps|
  {
    if steps == [] then [] else StepLines(steps[..|steps| - 1]) + [StepLine(steps[|steps| - 1])]
  }

  /** Line `i` of `StepLines(steps)` is the line of step `i`. */
  lemma {:induction false} StepLinesAt(steps: seq<ReportStep>, i: nat)
    requires i < |steps|
    ensures StepLines(steps)[i] == StepLine(steps[i])
    decreases |steps|
  {
    if i < |steps| - 1 {
      var init := steps[..|steps| - 1];
      StepLinesAt(init, i);
      assert init[i] == steps[i];
    }
  }

  /** The step loop of `printTests`: one line per executed step, in order. */
  method PrintSteps(steps: seq<ReportStep>) returns (lines: seq<string>)
    ensures |lines| == |steps|
    ensures forall i {:trigger StepLine(steps[i])} :: 0 <= i < |steps| ==> lines[i] == StepLine(steps[i])
  {
    lines := [];
    var i := 0;
    while i < |steps|
      invariant 0 <= i <= |steps|
      invariant lines == StepLines(steps[..i])
    {
      assert steps[..i + 1][..i] == steps[..i];
      lines := lines + [StepLine(steps[i])];
      i := i + 1;
    }
    assert steps[..i] == steps;
    forall k | 0 <= k < |steps|
      ensures lines[k] == StepLine(steps[k])
    {
      StepLinesAt(steps, k);
    }
  }

  /**
   * The placeholders of `printTests`: nothing unless more steps were planned than executed,
   * then one line per planned step from position `executed` on.
   */
  method PrintPlaceholders(planned: seq<string>, executed: nat) returns (lines: seq<string>)
    ensures |lines| == if |planned| > executed then |planned| - executed else 0
    ensures forall k {:trigger PlaceholderLine(planned[k])} :: executed <= k < |planned| ==> lines[k - executed] == PlaceholderLine(planned[k])
  {
    lines := [];
    if |planned| > executed {
      var remaining := planned[executed..];
      var j := 0;
      while j < |remaining|
        invariant 0 <= j <= |remaining|
        invariant |lines| == j
        invariant forall k :: 0 <= k < j ==> lines[k] == PlaceholderLine(remaining[k])
      {
        lines := lines + [PlaceholderLine(remaining[j])];
        j := j + 1;
      }
    }
  }
}
