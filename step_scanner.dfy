/**
 * The planned-step scanner of scripts/print-report.js (`parsePlannedStepsByTestTitle`):
 * one pass over the lines of a test file that remembers the title of the most recent
 * `test('…',` call and collects the titles of the `test.step('…',` calls that follow it.
 * The two regular expressions
 *     /\btest\s*\(\s*(["'`])([^"'`]+)\1\s*,/      and      /\btest\.step\s*\(\s*(["'`])([^"'`]+)\1\s*,/
 * are hand-written matchers here, proved sound and complete against a predicate that
 * spells out what the expression accepts.
 */
module StepScanner {
  import opened Wrappers
  import opened Text

  predicate IsQuote(c: char) {
    c == '"' || c == '\'' || c == '`'
  }

  predicate AllSpaceBetween(s: string, i: nat, j: nat)
    requires i <= j <= |s|
  {
    forall k :: i <= k < j ==> IsJsSpace(s[k])
  }

  predicate NoQuoteBetween(s: string, i: nat, j: nat)
    requires i <= j <= |s|
  {
    forall k :: i <= k < j ==> !IsQuote(s[k])
  }

  /** `\s*` from `from`: the first position that is not whitespace. */
  function SkipSpaces(s: string, from: nat): (r: nat)
    requires from <= |s|
    ensures from <= r <= |s| && AllSpaceBetween(s, from, r)
    ensures r < |s| ==> !IsJsSpace(s[r])
    decreases |s| - from
  {
    if from < |s| && IsJsSpace(s[from]) then SkipSpaces(s, from + 1) else from
  }

  /** `[^"'`]*` from `from`: the first position holding a quote. */
  function SkipTitle(s: string, from: nat): (r: nat)
    requires from <= |s|
    ensures from <= r <= |s| && NoQuoteBetween(s, from, r)
    ensures r < |s| ==> IsQuote(s[r])
    decreases |s| - from
  {
    if from < |s| && !IsQuote(s[from]) then SkipTitle(s, from + 1) else from
  }

  /** Where the parts of a call sit in the line: the `(`, the opening and closing quotes and the `,`. */
  datatype CallSpan = CallSpan(open: nat, quote: nat, close: nat, comma: nat)

  /**
   * The expression `\b<kw>\s*\(\s*(["'`])([^"'`]+)\1\s*,` matches at position `p` with the
   * given parts. Both keywords start with a word character, so `\b` holds exactly when `p`
   * is the start of the line or follows a character outside [A-Za-z0-9_].
   */
  predicate CallShape(s: string, p: nat, kw: string, sp: CallSpan) {
    && p <= |s|
    && (p == 0 || !IsWordChar(s[p - 1]))
    && OccursAt(s, kw, p)
    && p + |kw| <= sp.open < sp.quote && sp.quote + 1 < sp.close < sp.comma < |s|
    && AllSpaceBetween(s, p + |kw|, sp.open) && s[sp.open] == '('
    && AllSpaceBetween(s, sp.open + 1, sp.quote) && IsQuote(s[sp.quote])
    && NoQuoteBetween(s, sp.quote + 1, sp.close) && s[sp.close] == s[sp.quote]
    && AllSpaceBetween(s, sp.close + 1, sp.comma) && s[sp.comma] == ','
  }

  /** The captured title of a call. */
  function TitleOf(s: string, sp: CallSpan): string
    requires sp.quote < sp.close <= |s|
  {
    s[sp.quote + 1..sp.close]
  }

  /** The call pattern tried at position `p`; the span it returns has the shape of the expression. */
  function MatchCallAt(s: string, p: nat, kw: string): (r: Option<CallSpan>)
    requires p <= |s|
    ensures r.Some? ==> CallShape(s, p, kw, r.value)
  {
    if !(OccursAt(s, kw, p) && (p == 0 || !IsWordChar(s[p - 1]))) then None
    else MatchFromParen(s, SkipSpaces(s, p + |kw|))
  }

  /** The rest of the pattern, `\(\s*(["'`])([^"'`]+)\1\s*,`, tried at `open`. */
  function MatchFromParen(s: string, open: nat): (r: Option<CallSpan>)
    requires open <= |s|
    ensures r.Some? ==>
      && r.value.open == open < r.value.quote < |s| && s[open] == '('
      && AllSpaceBetween(s, open + 1, r.value.quote) && IsQuote(s[r.value.quote])
      && TitleShape(s, r.value)
  {
    if open == |s| || s[open] != '(' then None
    else
      var quote := SkipSpaces(s, open + 1);
      if quote == |s| || !IsQuote(s[quote]) then None
      else MatchFromQuote(s, open, quote)
  }

  /** From the opening quote on: a non-empty quote-free title, the same quote, spaces and a comma. */
  predicate TitleShape(s: string, sp: CallSpan) {
    && sp.quote + 1 < sp.close < sp.comma < |s|
    && NoQuoteBetween(s, sp.quote + 1, sp.close) && s[sp.close] == s[sp.quote]
    && AllSpaceBetween(s, sp.close + 1, sp.comma) && s[sp.comma] == ','
  }

  /** `([^"'`]+)\1\s*,` tried after the opening quote at `quote`. */
  function MatchFromQuote(s: string, open: nat, quote: nat): (r: Option<CallSpan>)
    requires quote < |s|
    ensures r.Some? ==> r.value.open == open && r.value.quote == quote && TitleShape(s, r.value)
  {
    var close := SkipTitle(s, quote + 1);
    if close == quote + 1 || close == |s| || s[close] != s[quote] then None
    else
      var comma := SkipSpaces(s, close + 1);
      if comma == |s| || s[comma] != ',' then None
      else Some(CallSpan(open, quote, close, comma))
  }

  /** Whitespace skipping stops exactly at the end of a run of spaces followed by a non-space. */
  lemma SkipSpacesExact(s: string, from: nat, to: nat)
    requires from <= to < |s| && AllSpaceBetween(s, from, to) && !IsJsSpace(s[to])
    ensures SkipSpaces(s, from) == to
  {
  }

  lemma SkipTitleExact(s: string, from: nat, to: nat)
    requires from <= to < |s| && NoQuoteBetween(s, from, to) && IsQuote(s[to])
    ensures SkipTitle(s, from) == to
  {
  }

  lemma MatchFromQuoteComplete(s: string, sp: CallSpan)
    requires sp.quote < |s| && TitleShape(s, sp) && IsQuote(s[sp.quote])
    ensures MatchFromQuote(s, sp.open, sp.quote) == Some(sp)
  {
    SkipTitleExact(s, sp.quote + 1, sp.close);
    SkipSpacesExact(s, sp.close + 1, sp.comma);
  }

  lemma MatchFromParenComplete(s: string, sp: CallSpan)
    requires sp.open < sp.quote < |s| && s[sp.open] == '(' && TitleShape(s, sp)
    requires AllSpaceBetween(s, sp.open + 1, sp.quote) && IsQuote(s[sp.quote])
    ensures MatchFromParen(s, sp.open) == Some(sp)
  {
    SkipSpacesExact(s, sp.open + 1, sp.quote);
    MatchFromQuoteComplete(s, sp);
  }

  /** Whenever the expression matches at `p`, the matcher finds that very match. */
  lemma MatchCallAtComplete(s: string, p: nat, kw: string, sp: CallSpan)
    requires CallShape(s, p, kw, sp)
    ensures MatchCallAt(s, p, kw) == Some(sp)
  {
    SkipSpacesExact(s, p + |kw|, sp.open);
    MatchFromParenComplete(s, sp);
  }

  /** `line.match(regex)`: the leftmost position from `p` on where the call pattern matches. */
  function FirstCallFrom(s: string, kw: string, p: nat): (r: Option<(nat, CallSpan)>)
    requires p <= |s|
    ensures r.Some? ==> p <= r.value.0 <= |s| && MatchCallAt(s, r.value.0, kw) == Some(r.value.1)
    ensures r.Some? ==> forall q :: p <= q < r.value.0 ==> MatchCallAt(s, q, kw).None?
    ensures r.None? ==> forall q :: p <= q <= |s| ==> MatchCallAt(s, q, kw).None?
  {
    var f := (q: nat) => if q <= |s| then MatchCallAt(s, q, kw) else None;
    assert forall q: nat :: q <= |s| ==> f(q) == MatchCallAt(s, q, kw);
    FirstSome(f, p, |s|)
  }

  /** The leftmost position in `p..end` where `f` has a value, with that value. */
  function FirstSome<T>(f: nat -> Option<T>, p: nat, end: nat): (r: Option<(nat, T)>)
    requires p <= end
    ensures r.Some? ==> p <= r.value.0 <= end && f(r.value.0) == Some(r.value.1)
    ensures r.Some? ==> forall q :: p <= q < r.value.0 ==> f(q).None?
    ensures r.None? ==> forall q :: p <= q <= end ==> f(q).None?
    decreases end - p
  {
    match f(p)
    case Some(v) => Some((p, v))
    case None => if p == end then None else FirstSome(f, p + 1, end)
  }

  /** The title captured by the first `kw(…, ` call of the line, if any. */
  function CallTitle(line: string, kw: string): (r: Option<string>)
    ensures r.Some? ==> r.value != "" && forall k :: 0 <= k < |r.value| ==> !IsQuote(r.value[k])
  {
    match FirstCallFrom(line, kw, 0)
    case None => None
    case Some((_, sp)) => Some(TitleOf(line, sp))
  }

  /** `line.match(testTitleRegex)?.[2]`. */
  function TestTitle(line: string): Option<string> {
    CallTitle(line, "test")
  }

  /** `line.match(stepRegex)?.[2]`. */
  function StepTitle(line: string): Option<string> {
    CallTitle(line, "test.step")
  }

  /**
   * A line in which every `test` is directly followed by a dot (`test.only(`, `test.step(`,
   * `test.describe(`) is not a test line.
   */
  lemma DottedCallIsNotTest(line: string)
    requires forall q: nat :: OccursAt(line, "test", q) ==> q + 4 < |line| && line[q + 4] == '.'
    ensures TestTitle(line).None?
  {
  }

  // ---------------------------------------------------------------------------
  // The scan

  /** How the loop treats a line: a test line, a step line, or neither. */
  datatype LineKind = TestLine(title: string) | StepLine(title: string) | OtherLine

  /** A line matching the test pattern is a test line even if it also matches the step pattern. */
  function Classify(line: string): (k: LineKind)
    ensures k.TestLine? <==> TestTitle(line).Some?
    ensures k.TestLine? ==> TestTitle(line) == Some(k.title)
    ensures k.StepLine? <==> TestTitle(line).None? && StepTitle(line).Some?
    ensures k.StepLine? ==> StepTitle(line) == Some(k.title)
  {
    match TestTitle(line)
    case Some(t) => TestLine(t)
    case None =>
      match StepTitle(line)
      case Some(step) => StepLine(step)
      case None => OtherLine
  }

  function ClassifyAll(lines: seq<string>): (r: seq<LineKind>)
    ensures |r| == |lines|
    ensures forall i :: 0 <= i < |lines| ==> r[i] == Classify(lines[i])
  {
    seq(|lines|, i requires 0 <= i < |lines| => Classify(lines[i]))
  }

  /** `currentTestTitle` and the title → step-titles map. */
  datatype ScanState = ScanState(current: Option<string>, plan: map<string, seq<string>>)

  predicate ScanInv(st: ScanState) {
    st.current.Some? ==> st.current.value in st.plan
  }

  /**
   * One iteration of the loop: a test line makes its title current (with an empty list if
   * the title is new) and is never read as a step line; a step line appends its title to
   * the current test's list, and is dropped when no test has been seen yet.
   */
  function ScanLine(st: ScanState, k: LineKind): (r: ScanState)
    requires ScanInv(st)
    ensures ScanInv(r)
  {
    match k
    case TestLine(t) => ScanState(Some(t), if t in st.plan then st.plan else st.plan[t := []])
    case StepLine(step) =>
      if st.current.Some? then ScanState(st.current, st.plan[st.current.value := st.plan[st.current.value] + [step]])
      else st
    case OtherLine => st
  }

  /** The state after scanning all of `kinds`. */
  function Scan(kinds: seq<LineKind>): (r: ScanState)
    ensures ScanInv(r)
  {
    if |kinds| == 0 then ScanState(None, map[])
    else ScanLine(Scan(kinds[..|kinds| - 1]), kinds[|kinds| - 1])
  }

  // Reference definitions, stated line by line rather than through the scanner's state.

  /** The title of the last test line. */
  function LastTitle(kinds: seq<LineKind>): Option<string> {
    if |kinds| == 0 then None
    else if kinds[|kinds| - 1].TestLine? then Some(kinds[|kinds| - 1].title)
    else LastTitle(kinds[..|kinds| - 1])
  }

  /** The titles of the step lines whose nearest preceding test line is titled `t`, in line order. */
  function StepsFor(kinds: seq<LineKind>, t: string): seq<string> {
    if |kinds| == 0 then []
    else
      var init := kinds[..|kinds| - 1];
      var last := kinds[|kinds| - 1];
      StepsFor(init, t) + (if last.StepLine? && LastTitle(init) == Some(t) then [last.title] else [])
  }

  /**
   * What the scan computes: the current title is the last test title, the map has a key for
   * exactly the test titles that occur, and each key maps to the steps that follow the
   * occurrences of that title, repeated titles sharing one list.
   */
  lemma {:induction false} ScanMeaning(kinds: seq<LineKind>)
    ensures Scan(kinds).current == LastTitle(kinds)
    ensures forall t :: t in Scan(kinds).plan <==> TestLine(t) in kinds
    ensures forall t :: t in Scan(kinds).plan ==> Scan(kinds).plan[t] == StepsFor(kinds, t)
  {
    if |kinds| > 0 {
      ScanMeaning(kinds[..|kinds| - 1]);
      assert Explains(kinds[..|kinds| - 1]);
      ScanMeaningStep(kinds[..|kinds| - 1], kinds[|kinds| - 1]);
      assert kinds == kinds[..|kinds| - 1] + [kinds[|kinds| - 1]];
    }
  }

  /** The three facts of `ScanMeaning` about the scan of `kinds`. */
  ghost predicate Explains(kinds: seq<LineKind>) {
    var st := Scan(kinds);
    && st.current == LastTitle(kinds)
    && (forall t :: t in st.plan <==> TestLine(t) in kinds)
    && (forall t :: t in st.plan ==> st.plan[t] == StepsFor(kinds, t))
  }

  /** One more line keeps the three facts of `ScanMeaning`. */
  lemma ScanMeaningStep(init: seq<LineKind>, last: LineKind)
    requires Explains(init)
    ensures Explains(init + [last])
  {
    var kinds := init + [last];
    assert kinds[..|kinds| - 1] == init;
    match last
    case TestLine(title) => ExplainsTestLine(init, title);
    case StepLine(step) => ExplainsStepLine(init, step);
    case OtherLine =>
      assert forall t :: TestLine(t) in kinds <==> TestLine(t) in init;
  }

  lemma ExplainsTestLine(init: seq<LineKind>, title: string)
    requires Explains(init)
    ensures Explains(init + [TestLine(title)])
  {
    var kinds := init + [TestLine(title)];
    assert kinds[..|kinds| - 1] == init;
    assert forall t :: TestLine(t) in kinds <==> TestLine(t) in init || t == title;
    assert LastTitle(kinds) == Some(title);
    assert forall t :: StepsFor(kinds, t) == StepsFor(init, t) + [];
    var plan := Scan(init).plan;
    if title in plan {
      assert Scan(kinds).plan == plan;
    } else {
      StepsForUnknownTitle(init, title);
      assert Scan(kinds).plan == plan[title := []];
    }
  }

  lemma ExplainsStepLine(init: seq<LineKind>, step: string)
    requires Explains(init)
    ensures Explains(init + [StepLine(step)])
  {
    var kinds := init + [StepLine(step)];
    assert kinds[..|kinds| - 1] == init;
    assert forall t :: TestLine(t) in kinds <==> TestLine(t) in init;
    var st := Scan(init);
    forall t | t in Scan(kinds).plan
      ensures Scan(kinds).plan[t] == StepsFor(kinds, t)
    {
      if st.current == Some(t) {
        assert Scan(kinds).plan[t] == st.plan[t] + [step];
      }
    }
  }

  /** No step is credited to a title that never occurs on a test line. */
  lemma {:induction false} StepsForUnknownTitle(kinds: seq<LineKind>, t: string)
    requires TestLine(t) !in kinds
    ensures LastTitle(kinds) != Some(t)
    ensures StepsFor(kinds, t) == []
  {
    if |kinds| > 0 {
      var init := kinds[..|kinds| - 1];
      assert forall k :: k in init ==> k in kinds;
      StepsForUnknownTitle(init, t);
    }
  }

  /** Step lines met before any test line are dropped: lines without a test line plan nothing. */
  lemma NoTestLineNoPlan(kinds: seq<LineKind>)
    requires forall i :: 0 <= i < |kinds| ==> !kinds[i].TestLine?
    ensures Scan(kinds) == ScanState(None, map[])
  {
    ScanMeaning(kinds);
  }

  /**
   * The lines of tests/test-first.spec.ts that are not `OtherLine`, in order: its first test
   * is declared with `test.only(`, which the test pattern does not match, so that test's two
   * steps come before any recognised test and are dropped.
   */
  lemma TestOnlyStepsDropped()
    ensures Scan([OtherLine,
                  StepLine("Go to the playwright website"),
                  StepLine("Check the title"),
                  TestLine("TC-004: Check the get started link"),
                  StepLine("Go to the playwright website"),
                  StepLine("Click the get started link"),
                  StepLine("Check the installation heading")]).plan
            == map["TC-004: Check the get started link" :=
                     ["Go to the playwright website", "Click the get started link", "Check the installation heading"]]
  {
    var kinds := [OtherLine,
                  StepLine("Go to the playwright website"),
                  StepLine("Check the title"),
                  TestLine("TC-004: Check the get started link"),
                  StepLine("Go to the playwright website"),
                  StepLine("Click the get started link"),
                  StepLine("Check the installation heading")];
    var t := "TC-004: Check the get started link";
    var s1, s2, s3 := "Go to the playwright website", "Click the get started link", "Check the installation heading";
    NoTestLineNoPlan(kinds[..3]);
    assert kinds[..4][..3] == kinds[..3];
    assert Scan(kinds[..4]) == ScanState(Some(t), map[t := []]);
    assert kinds[..5][..4] == kinds[..4];
    assert [] + [s1] == [s1];
    assert Scan(kinds[..5]) == ScanState(Some(t), map[t := [s1]]);
    assert kinds[..6][..5] == kinds[..5];
    assert [s1] + [s2] == [s1, s2];
    assert Scan(kinds[..6]) == ScanState(Some(t), map[t := [s1, s2]]);
    assert kinds[..7][..6] == kinds[..6];
    assert [s1, s2] + [s3] == [s1, s2, s3];
    assert kinds[..7] == kinds;
  }

  /**
   * The loop of `parsePlannedStepsByTestTitle` over the lines of one file, with its mutable
   * current title and its map.
   */
  method ScanPlannedSteps(lines: seq<string>) returns (plan: map<string, seq<string>>)
    ensures plan == Scan(ClassifyAll(lines)).plan
    ensures forall t :: t in plan <==> TestLine(t) in ClassifyAll(lines)
    ensures forall t :: t in plan ==> plan[t] == StepsFor(ClassifyAll(lines), t)
  {
    ghost var kinds := ClassifyAll(lines);
    var current: Option<string> := None;
    plan := map[];
    var i := 0;
    while i < |lines|
      invariant 0 <= i <= |lines|
      invariant Scan(kinds[..i]) == ScanState(current, plan)
    {
      assert kinds[..i + 1][..i] == kinds[..i];
      var line := lines[i];
      var tMatch := TestTitle(line);
      if tMatch.Some? {
        current := tMatch;
        if tMatch.value !in plan {
          plan := plan[tMatch.value := []];
        }
      } else {
        var sMatch := StepTitle(line);
        if sMatch.Some? && current.Some? {
          plan := plan[current.value := plan[current.value] + [sMatch.value]];
        }
      }
      i := i + 1;
    }
    assert kinds[..|lines|] == kinds;
    ScanMeaning(kinds);
  }

  // ---------------------------------------------------------------------------
  // Reading a file

  /** `src.split(/\r?\n/)`. */
  function SplitLines(src: string): (r: seq<string>)
    ensures |r| > 0
    ensures forall i :: 0 <= i < |r| ==> '\n' !in r[i]
    decreases |src|
  {
    var line := BeforeFirst(src, '\n');
    if |line| == |src| then [src]
    else
      var text := if |line| > 0 && line[|line| - 1] == '\r' then line[..|line| - 1] else line;
      [text] + SplitLines(src[|line| + 1..])
  }

  /** Without carriage returns, joining the lines with newlines gives back the text. */
  lemma {:induction false} SplitLinesJoin(src: string)
    requires '\r' !in src
    ensures Join(SplitLines(src), "\n") == src
    decreases |src|
  {
    var line := BeforeFirst(src, '\n');
    if |line| < |src| {
      var rest := src[|line| + 1..];
      assert '\r' !in rest by {
        forall k | 0 <= k < |rest| ensures rest[k] != '\r' {
          assert rest[k] == src[|line| + 1 + k];
        }
      }
      assert SplitLines(src) == [line] + SplitLines(rest) by {
        if |line| > 0 {
          assert line[|line| - 1] == src[|line| - 1];
        }
      }
      SplitLinesJoin(rest);
      assert src == line + "\n" + rest;
    } else {
      assert SplitLines(src) == [src];
    }
  }

  /**
   * Lines joined with `\r\n` split back into the same lines: each `\r\n` ends a line and
   * its `\r` is dropped, whatever other carriage returns the lines hold.
   */
  lemma {:induction false} SplitLinesJoinCrlf(lines: seq<string>)
    requires |lines| > 0
    requires forall i :: 0 <= i < |lines| ==> '\n' !in lines[i]
    ensures SplitLines(Join(lines, "\r\n")) == lines
    decreases |lines|
  {
    var src := Join(lines, "\r\n");
    if |lines| == 1 {
      assert src == lines[0];
      assert |BeforeFirst(src, '\n')| == |src|;
    } else {
      var rest := Join(lines[1..], "\r\n");
      var x := lines[0] + "\r";
      assert src == x + "\n" + rest;
      assert '\n' !in x;
      BeforeFirstOfPrefix(src, '\n', x);
      assert src[|x| + 1..] == rest;
      assert x[..|x| - 1] == lines[0];
      SplitLinesJoinCrlf(lines[1..]);
    }
  }

  /** The plan of one file: empty when the file cannot be read. */
  function PlanOfFile(files: map<string, string>, path: string): map<string, seq<string>> {
    if path in files then Scan(ClassifyAll(SplitLines(files[path]))).plan else map[]
  }

  /**
   * `plannedStepsFileCache` with `parsePlannedStepsByTestTitle`. The file system is passed
   * in as a map from path to text, a path missing from it standing for a file that cannot
   * be read.
   */
  class PlannedStepsCache {
    var entries: map<string, map<string, seq<string>>>

    constructor ()
      ensures entries == map[]
    {
      entries := map[];
    }

    /**
     * A cached path is answered from the cache; any other is read, scanned, and its plan
     * (empty for an unreadable file) is stored under the path.
     */
    method ParsePlannedStepsByTestTitle(path: string, files: map<string, string>)
      returns (plan: map<string, seq<string>>)
      modifies this
      ensures path in old(entries) ==> plan == old(entries)[path] && entries == old(entries)
      ensures path !in old(entries) ==> plan == PlanOfFile(files, path) && entries == old(entries)[path := plan]
    {
      if path in entries {
        return entries[path];
      }
      plan := map[];
      if path in files {
        var lines := SplitLines(files[path]);
        plan := ScanPlannedSteps(lines);
      }
      entries := entries[path := plan];
    }
  }

  /**
   * Asking twice for the same path gives the first answer again, even when the file has
   * changed in between: the file is read once per run.
   */
  method ParseTwice(path: string, before: map<string, string>, after: map<string, string>)
    returns (first: map<string, seq<string>>, second: map<string, seq<string>>)
    ensures first == PlanOfFile(before, path)
    ensures second == first
  {
    var cache := new PlannedStepsCache();
    first := cache.ParsePlannedStepsByTestTitle(path, before);
    second := cache.ParsePlannedStepsByTestTitle(path, after);
  }
}
