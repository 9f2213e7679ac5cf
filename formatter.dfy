/**
 * zest-pw/utils/test-result-formatter.ts: `printTestResults` writes the per-test, per-step
 * console listing of a report, and saves each PNG screenshot it lists when SAVE_SCREENSHOTS
 * is on. The console is modelled as the list of lines written (standard output and standard
 * error together), and an exception that escapes the listing as a `thrown` flag after the
 * lines written so far. The file system is the `Saver` parameter.
 */
module Formatter {
  import opened Wrappers
  import opened Text
  import Seqs
  import opened Report
  import Enrich

  const DetailsBanner := "\n=== Деталі по тестах та їх кроках ==="
  const FinalBanner := "\n=== Фінальне завершення ==="
  const NoStepsLine := "  Кроки: немає"
  const StepsHeaderPrefix := "  Кроки ("
  const SaveErrorPrefix := "           ⚠️  Error saving screenshot: "
  const SavedPrefix := "           📸 Saved to: "
  const AttachmentBullet := "         - "
  const PathLabel := " - Path: "
  const PreviewPrefix := "           Base64 ("
  const PreviewBytes := " bytes): "
  const Ellipsis := "..."
  const ActualResultLine := "       actualResult:"
  const StepNumberIndent := "    "
  const StatusNameLabel := "       statusName: "
  const StepErrorLabel := "       Error: "
  const TestLabel := "\nТест "
  const StatusLabel := "  Status: "
  const TestErrorLabel := "  Помилка тесту: "

  /** The two environment variables the formatter reads. */
  datatype Env = Env(printTestResults: Option<string>, saveScreenshots: Option<string>)

  /**
   * `saveBase64Screenshot(base64, fileName, outputDir)`: the path written, or the text of the
   * error it threw.
   */
  type Saver = (string, string, string) -> Result<string>

  /** Whether listed screenshots are written, and where. */
  datatype Saving = NoSaving | SaveTo(saver: Saver, outputDir: string)

  /** Lines written so far, and whether an exception ended the listing. */
  datatype Printed = Printed(lines: seq<string>, thrown: bool)

  /** The placeholder `combineSteps` makes for a planned step that did not run. */
  function InProgressStep(title: string): (r: StepRecord)
    ensures r.title == Some(title) && r.status == Some("in progress") && r.duration == Some(0)
    ensures r.attachments == Some([]) && r.error.None? && r.stepTitle.None? && r.actualResult.None?
  {
    StepRecord(Some(title), Some("in progress"), Some(0), Some([]), None, None, None)
  }

  // ---------------------------------------------------------------------------------------
  // The output directory: test-results/{file name}-{sanitised title}-chromium
  // ---------------------------------------------------------------------------------------

  /** The ASCII letters and digits of `s`, in order. */
  function AlnumOnly(s: string): string {
    if s == [] then [] else (if IsAsciiAlnum(s[0]) then [s[0]] else []) + AlnumOnly(s[1..])
  }

  lemma {:induction false} AlnumOnlyAppend(a: string, b: string)
    ensures AlnumOnly(a + b) == AlnumOnly(a) + AlnumOnly(b)
  {
    if a != [] {
      assert (a + b)[1..] == a[1..] + b;
      AlnumOnlyAppend(a[1..], b);
    } else {
      assert a + b == b;
    }
  }

  /** AlnumOnly is the filter of `s` by IsAsciiAlnum: a subsequence of `s` of its letters and digits. */
  lemma {:induction false} AlnumOnlyIsFilter(s: string)
    ensures AlnumOnly(s) == Seqs.Filter(s, IsAsciiAlnum)
  {
    if s != [] {
      AlnumOnlyIsFilter(s[1..]);
    }
  }

  /** Every character of `s` is an ASCII letter or digit. */
  predicate AllAlnum(s: string) {
    forall i :: 0 <= i < |s| ==> IsAsciiAlnum(s[i])
  }

  /** No character of `s` is an ASCII letter or digit. */
  predicate NoAlnum(s: string) {
    forall i :: 0 <= i < |s| ==> !IsAsciiAlnum(s[i])
  }

  /** No two dashes stand next to each other in `s`. */
  predicate NoDoubleDash(s: string) {
    forall i, j :: 0 <= i < |s| && j == i + 1 && j < |s| ==> !(s[i] == '-' && s[j] == '-')
  }

  /** Drops the leading run of characters outside [A-Za-z0-9]. */
  function SkipNonAlnum(s: string): (r: string)
    ensures |r| <= |s| && (s != [] && !IsAsciiAlnum(s[0]) ==> |r| < |s|)
    ensures r == [] || IsAsciiAlnum(r[0])
    ensures AlnumOnly(r) == AlnumOnly(s)
  {
    if s == [] || IsAsciiAlnum(s[0]) then s
    else
      AlnumOnlyAppend([s[0]], s[1..]);
      assert s == [s[0]] + s[1..];
      SkipNonAlnum(s[1..])
  }

  /**
   * `s.replace(/[^a-zA-Z0-9]+/g, '-')`: every maximal run of characters outside [A-Za-z0-9]
   * becomes one '-'. The result keeps the letters and digits in order, never has two dashes
   * in a row, and starts with a dash exactly when `s` starts with a run. CollapseKeepsAlnum,
   * CollapseRunToDash and CollapseAppend below fix it on every string.
   */
  function Collapse(s: string): (r: string)
    ensures forall i :: 0 <= i < |r| ==> IsAsciiAlnum(r[i]) || r[i] == '-'
    ensures NoDoubleDash(r)
    ensures (r != [] && r[0] == '-') <==> (s != [] && !IsAsciiAlnum(s[0]))
    ensures r == [] <==> s == []
    ensures AlnumOnly(r) == AlnumOnly(s)
    decreases |s|
  {
    if s == [] then []
    else if IsAsciiAlnum(s[0]) then
      AlnumOnlyAppend([s[0]], s[1..]);
      assert s == [s[0]] + s[1..];
      var rest := Collapse(s[1..]);
      AlnumOnlyAppend([s[0]], rest);
      [s[0]] + rest
    else
      var rest := Collapse(SkipNonAlnum(s));
      AlnumOnlyAppend("-", rest);
      "-" + rest
  }

  /** When `s` has a letter or digit, what SkipNonAlnum keeps is non-empty and ends as `s` does. */
  lemma {:induction false} SkipNonAlnumKeepsLast(s: string)
    requires !NoAlnum(s)
    ensures var r := SkipNonAlnum(s); r != [] && r[|r| - 1] == s[|s| - 1]
  {
    if !IsAsciiAlnum(s[0]) {
      assert !NoAlnum(s[1..]) by {
        var k :| 0 <= k < |s| && IsAsciiAlnum(s[k]);
        assert s[1..][k - 1] == s[k];
      }
      SkipNonAlnumKeepsLast(s[1..]);
    }
  }

  /** A leading run that ends inside `a` is dropped from `a + b` as from `a`. */
  lemma {:induction false} SkipNonAlnumAppend(a: string, b: string)
    ensures NoAlnum(a) ==> SkipNonAlnum(a + b) == SkipNonAlnum(b)
    ensures !NoAlnum(a) ==> SkipNonAlnum(a + b) == SkipNonAlnum(a) + b
    decreases |a|
  {
    if a == [] {
      assert a + b == b;
    } else if IsAsciiAlnum(a[0]) {
      assert !NoAlnum(a);
    } else {
      assert (a + b)[1..] == a[1..] + b;
      SkipNonAlnumAppend(a[1..], b);
      assert NoAlnum(a) <==> NoAlnum(a[1..]) by {
        if NoAlnum(a[1..]) {
          forall i | 0 <= i < |a| ensures !IsAsciiAlnum(a[i]) {
            if i > 0 { assert a[i] == a[1..][i - 1]; }
          }
        }
      }
    }
  }

  /** A run of letters and digits is kept as it is. */
  lemma {:induction false} CollapseKeepsAlnum(s: string)
    requires AllAlnum(s)
    ensures Collapse(s) == s
  {
    if s != [] {
      CollapseKeepsAlnum(s[1..]);
    }
  }

  /** A non-empty run of other characters becomes one dash. */
  lemma CollapseRunToDash(s: string)
    requires s != [] && NoAlnum(s)
    ensures Collapse(s) == "-"
  {
    SkipNonAlnumAppend(s, []);
    assert s + [] == s;
  }

  /**
   * Collapsing works piece by piece wherever the cut does not split a run. With
   * CollapseKeepsAlnum and CollapseRunToDash this fixes Collapse on every string.
   */
  lemma {:induction false} CollapseAppend(a: string, b: string)
    requires a == [] || b == [] || IsAsciiAlnum(a[|a| - 1]) || IsAsciiAlnum(b[0])
    ensures Collapse(a + b) == Collapse(a) + Collapse(b)
    decreases |a|, 1
  {
    if a == [] {
      assert a + b == b;
    } else if b == [] {
      assert a + b == a;
    } else if IsAsciiAlnum(a[0]) {
      CollapseAppendAlnumHead(a, b);
    } else if NoAlnum(a) {
      CollapseAppendRunThenAlnum(a, b);
    } else {
      CollapseAppendRunHead(a, b);
    }
  }

  lemma {:induction false} CollapseAppendAlnumHead(a: string, b: string)
    requires a != [] && b != [] && IsAsciiAlnum(a[0])
    requires IsAsciiAlnum(a[|a| - 1]) || IsAsciiAlnum(b[0])
    ensures Collapse(a + b) == Collapse(a) + Collapse(b)
    decreases |a|, 0
  {
    var t := a[1..];
    assert (a + b)[0] == a[0] && (a + b)[1..] == t + b;
    CollapseAppend(t, b);
    Seqs.AppendAssoc([a[0]], Collapse(t), Collapse(b));
  }

  lemma CollapseAppendRunThenAlnum(a: string, b: string)
    requires a != [] && b != [] && NoAlnum(a) && IsAsciiAlnum(b[0])
    ensures Collapse(a + b) == Collapse(a) + Collapse(b)
  {
    SkipNonAlnumAppend(a, b);
    CollapseRunToDash(a);
    assert (a + b)[0] == a[0];
    assert Collapse(a + b) == "-" + Collapse(b);
  }

  lemma {:induction false} CollapseAppendRunHead(a: string, b: string)
    requires a != [] && b != [] && !IsAsciiAlnum(a[0]) && !NoAlnum(a)
    requires IsAsciiAlnum(a[|a| - 1]) || IsAsciiAlnum(b[0])
    ensures Collapse(a + b) == Collapse(a) + Collapse(b)
    decreases |a|, 0
  {
    var rest := SkipNonAlnum(a);
    assert SkipNonAlnum(a + b) == rest + b by { SkipNonAlnumAppend(a, b); }
    assert rest != [] && rest[|rest| - 1] == a[|a| - 1] by { SkipNonAlnumKeepsLast(a); }
    assert Collapse(a + b) == "-" + Collapse(rest + b) by { assert (a + b)[0] == a[0]; }
    assert Collapse(a) == "-" + Collapse(rest);
    CollapseAppend(rest, b);
    Seqs.AppendAssoc("-", Collapse(rest), Collapse(b));
  }

  /** The dash `^-` matches: the first character when it is a dash. */
  function LeadingDash(s: string): (r: string)
    ensures StartsWith(s, r)
  {
    if s != [] && s[0] == '-' then "-" else ""
  }

  /** The dash `-$` matches: the last character when it is a dash. */
  function TrailingDash(s: string): (r: string)
    ensures EndsWith(s, r)
  {
    if s != [] && s[|s| - 1] == '-' then "-" else ""
  }

  /** `s.replace(/^-|-$/g, '')`: one leading and one trailing dash are removed. */
  function TrimDashes(s: string): (r: string)
    ensures s == LeadingDash(s) + r + TrailingDash(s[|LeadingDash(s)|..])
    ensures AlnumOnly(r) == AlnumOnly(s)
  {
    var lead := LeadingDash(s);
    var t := s[|lead|..];
    assert s == lead + t;
    AlnumOnlyAppend(lead, t);
    var trail := TrailingDash(t);
    var r := t[..|t| - |trail|];
    assert t == r + trail;
    AlnumOnlyAppend(r, trail);
    r
  }

  /**
   * The sanitised title of the output directory: only letters, digits and single dashes
   * between them, with the letters and digits of the title kept in order.
   */
  function SanitiseTitle(title: string): (r: string)
    ensures forall i :: 0 <= i < |r| ==> IsAsciiAlnum(r[i]) || r[i] == '-'
    ensures NoDoubleDash(r)
    ensures r != [] ==> r[0] != '-' && r[|r| - 1] != '-'
    ensures AlnumOnly(r) == AlnumOnly(title)
  {
    var c := Collapse(title);
    TrimDashesShape(c);
    TrimDashes(c)
  }

  /** Trimming a text of letters, digits and single dashes leaves one that neither starts nor ends with a dash. */
  lemma TrimDashesShape(c: string)
    requires forall i :: 0 <= i < |c| ==> IsAsciiAlnum(c[i]) || c[i] == '-'
    requires NoDoubleDash(c)
    ensures var r := TrimDashes(c);
            && (forall i :: 0 <= i < |r| ==> IsAsciiAlnum(r[i]) || r[i] == '-')
            && NoDoubleDash(r)
            && (r != [] ==> r[0] != '-' && r[|r| - 1] != '-')
  {
    TrimDashesIsSlice(c);
    DashesSlice(c, |LeadingDash(c)|, |c| - |TrailingDash(c[|LeadingDash(c)|..])|);
    TrimmedStart(c);
    TrimmedEnd(c);
  }

  /** Trimming keeps the slice of the text between the removed dashes. */
  lemma TrimDashesIsSlice(c: string)
    ensures var a := |LeadingDash(c)|;
      var b := |c| - |TrailingDash(c[a..])|;
      a <= b <= |c| && TrimDashes(c) == c[a..b]
  {
    var lead := LeadingDash(c);
    var r := TrimDashes(c);
    var trail := TrailingDash(c[|lead|..]);
    assert c == lead + r + trail;
  }

  /** Without two dashes in a row, the trimmed text does not start with a dash. */
  lemma TrimmedStart(c: string)
    requires NoDoubleDash(c)
    ensures var r := TrimDashes(c); r != [] ==> r[0] != '-'
  {
    TrimDashesIsSlice(c);
    var a := |LeadingDash(c)|;
    assert a == 1 ==> c[0] == '-';
    assert a < |c| ==> TrimDashes(c)[..1] == c[a..a + 1];
  }

  /** Without two dashes in a row, the trimmed text does not end with a dash. */
  lemma TrimmedEnd(c: string)
    requires NoDoubleDash(c)
    ensures var r := TrimDashes(c); r != [] ==> r[|r| - 1] != '-'
  {
    TrimDashesIsSlice(c);
    var a := |LeadingDash(c)|;
    var t := c[a..];
    var b := |c| - |TrailingDash(t)|;
    assert t != [] ==> t[|t| - 1] == c[|c| - 1];
    assert b == |c| - 1 ==> c[|c| - 1] == '-';
  }

  /** A slice of a text of letters, digits and single dashes is one too. */
  lemma DashesSlice(c: string, a: nat, b: nat)
    requires a <= b <= |c|
    requires forall i :: 0 <= i < |c| ==> IsAsciiAlnum(c[i]) || c[i] == '-'
    requires NoDoubleDash(c)
    ensures forall i :: 0 <= i < b - a ==> IsAsciiAlnum(c[a..b][i]) || c[a..b][i] == '-'
    ensures NoDoubleDash(c[a..b])
  {
    var r := c[a..b];
    assert forall i :: 0 <= i < |r| ==> r[i] == c[a + i];
  }

  /** A word of letters and digits in front is kept in front. */
  lemma CollapseWordThen(w: string, rest: string)
    requires w != [] && AllAlnum(w)
    ensures Collapse(w + rest) == w + Collapse(rest)
  {
    CollapseKeepsAlnum(w);
    CollapseAppend(w, rest);
  }

  /** A run in front of a word becomes one dash in front of it. */
  lemma CollapseRunThen(run: string, rest: string)
    requires run != [] && NoAlnum(run) && (rest == [] || IsAsciiAlnum(rest[0]))
    ensures Collapse(run + rest) == "-" + Collapse(rest)
  {
    CollapseRunToDash(run);
    CollapseAppend(run, rest);
  }

  /** `words[0] + seps[0] + words[1] + ... + words[n - 1]`: words with a run between each two. */
  function Interleave(words: seq<string>, seps: seq<string>): (r: string)
    requires |words| > 0 && |seps| == |words| - 1
    requires forall k :: 0 <= k < |words| ==> words[k] != []
    ensures r != [] && r[0] == words[0][0]
    ensures r[|r| - 1] == words[|words| - 1][|words[|words| - 1]| - 1]
    decreases |words|
  {
    if |words| == 1 then words[0]
    else words[0] + seps[0] + Interleave(words[1..], seps[1..])
  }

  /** Non-empty words of letters and digits, and non-empty runs without any, one run fewer than words. */
  predicate WordsAndRuns(words: seq<string>, seps: seq<string>) {
    && |words| > 0 && |seps| == |words| - 1
    && (forall k :: 0 <= k < |words| ==> words[k] != [] && AllAlnum(words[k]))
    && (forall k :: 0 <= k < |seps| ==> seps[k] != [] && NoAlnum(seps[k]))
  }

  /** Words separated by runs collapse to the words joined by single dashes. */
  lemma {:induction false} CollapseInterleave(words: seq<string>, seps: seq<string>)
    requires WordsAndRuns(words, seps)
    ensures Collapse(Interleave(words, seps)) == Join(words, "-")
    decreases |words|
  {
    if |words| == 1 {
      CollapseKeepsAlnum(words[0]);
    } else {
      assert WordsAndRuns(words[1..], seps[1..]) by {
        assert forall k :: 0 <= k < |words| - 1 ==> words[1..][k] == words[k + 1];
        assert forall k :: 0 <= k < |seps| - 1 ==> seps[1..][k] == seps[k + 1];
      }
      var x := Interleave(words[1..], seps[1..]);
      CollapseInterleave(words[1..], seps[1..]);
      CollapseRunThen(seps[0], x);
      Seqs.AppendAssoc(words[0], seps[0], x);
      CollapseAppend(words[0], seps[0] + x);
      CollapseKeepsAlnum(words[0]);
      Seqs.AppendAssoc(words[0], "-", Join(words[1..], "-"));
    }
  }

  lemma CancelEnds(l: string, x: string, y: string, t: string)
    requires l + x + t == l + y + t
    ensures x == y
  {
    assert x == (l + x + t)[|l|..|l| + |x|];
    assert y == (l + y + t)[|l|..|l| + |y|];
  }

  /** Trimming removes exactly a dash put in front and a dash put behind a text that has none at its ends. */
  lemma TrimDashesExact(lead: string, j: string, trail: string)
    requires lead == "" || lead == "-"
    requires trail == "" || trail == "-"
    requires j != [] && j[0] != '-' && j[|j| - 1] != '-'
    ensures TrimDashes(lead + j + trail) == j
  {
    var c := lead + j + trail;
    assert LeadingDash(c) == lead by {
      assert c[0] == if lead == "" then j[0] else '-';
    }
    assert TrailingDash(c[|lead|..]) == trail by {
      var rest := c[|lead|..];
      assert rest == j + trail;
      assert rest[|rest| - 1] == if trail == "" then j[|j| - 1] else '-';
    }
    CancelEnds(lead, TrimDashes(c), j, trail);
  }

  /**
   * A title made of words of letters and digits, separated by runs of other characters and
   * perhaps led and followed by such runs, sanitises to its words joined by single dashes:
   * `TC-001: Check the title` gives `TC-001-Check-the-title`.
   */
  lemma SanitiseTitleWords(lead: string, words: seq<string>, seps: seq<string>, trail: string)
    requires WordsAndRuns(words, seps) && NoAlnum(lead) && NoAlnum(trail)
    ensures SanitiseTitle(lead + Interleave(words, seps) + trail) == Join(words, "-")
  {
    var i := Interleave(words, seps);
    var j := Join(words, "-");
    var t := if trail == [] then "" else "-";
    var l := if lead == [] then "" else "-";
    assert Collapse(i + trail) == j + t by {
      CollapseInterleave(words, seps);
      CollapseAppend(i, trail);
      if trail != [] { CollapseRunToDash(trail); }
    }
    assert Collapse(lead + i + trail) == l + j + t by {
      Seqs.AppendAssoc(lead, i, trail);
      Seqs.AppendAssoc(l, j, t);
      if lead == [] {
        assert lead + (i + trail) == i + trail;
      } else {
        assert (i + trail)[0] == i[0];
        CollapseRunThen(lead, i + trail);
      }
    }
    assert j != [] && j[0] != '-' && j[|j| - 1] != '-' by {
      JoinEnds(words, "-");
      assert j[0] == words[0][0];
      var last := words[|words| - 1];
      assert j[|j| - 1] == last[|last| - 1];
    }
    TrimDashesExact(l, j, t);
  }

  /**
   * `file.split('/').pop()?.replace('.spec.ts', '') || 'test'`: the base name without its
   * first `.spec.ts`, or `test` when that is empty.
   */
  function TestFileName(file: string): (r: string)
    ensures r != [] && '/' !in r
    ensures var base := AfterLast(file, '/');
      base != [] && !Contains(base, ".spec.ts") ==> r == base
    ensures var base := AfterLast(file, '/');
      |base| > 8 && IndexOf(base, ".spec.ts", 0) == Some(|base| - 8) ==> r == base[..|base| - 8]
    ensures var base := AfterLast(file, '/');
      base == [] || base == ".spec.ts" ==> r == "test"
  {
    var base := AfterLast(file, '/');
    var name := ReplaceFirst(base, ".spec.ts", "");
    SpecRemovalSlashFree(base);
    SpecRemovalAtEnd(base);
    assert base == ".spec.ts" ==> IndexOf(base, ".spec.ts", 0) == Some(0);
    if name == "" then "test" else name
  }

  /** Removing the first `.spec.ts` adds no '/'. */
  lemma SpecRemovalSlashFree(base: string)
    ensures '/' !in base ==> '/' !in ReplaceFirst(base, ".spec.ts", "")
  {
    assert '/' !in "";
  }

  /** A `.spec.ts` that first occurs at the end is cut off; `.spec.ts` alone leaves nothing. */
  lemma SpecRemovalAtEnd(base: string)
    ensures |base| >= 8 && IndexOf(base, ".spec.ts", 0) == Some(|base| - 8) ==>
      ReplaceFirst(base, ".spec.ts", "") == base[..|base| - 8]
  {
    assert base[|base|..] == [];
  }

  /**
   * A spec file `<dir>/<stem>.spec.ts` whose stem has no '.' or '/' gives the stem:
   * `tests/TC-001.spec.ts` gives `TC-001`.
   */
  lemma TestFileNameOfSpec(dir: string, stem: string)
    requires stem != [] && '/' !in stem && '.' !in stem
    ensures TestFileName(dir + "/" + stem + ".spec.ts") == stem
  {
    var file := dir + "/" + stem + ".spec.ts";
    var base := stem + ".spec.ts";
    assert '/' !in ".spec.ts";
    assert file == dir + ("/" + base);
    assert EndsWith(file, "/" + base);
    AfterLastOfSuffix(file, '/', base);
    IndexOfAfterStem(stem, ".spec.ts");
    assert base[..|base| - 8] == stem;
  }

  /**
   * `path.join('test-results', `${fileName}-${title}-chromium`)`. The second part has no '/'
   * and ends in `-chromium`, so the join is a plain concatenation and never empty; the
   * fallback to `screenshots/` is therefore never taken.
   */
  function OutputDir(file: string, title: string): (r: string)
    ensures StartsWith(r, "test-results/") && EndsWith(r, "-chromium")
    ensures '/' !in r[13..]
    ensures r == "test-results/" + (TestFileName(file) + "-" + SanitiseTitle(title) + "-chromium")
  {
    DirNameHasNoSlash(TestFileName(file), SanitiseTitle(title));
    JoinedDirShape(TestFileName(file) + "-" + SanitiseTitle(title));
    "test-results/" + (TestFileName(file) + "-" + SanitiseTitle(title) + "-chromium")
  }

  lemma JoinedDirShape(stem: string)
    ensures var r := "test-results/" + (stem + "-chromium");
            StartsWith(r, "test-results/") && EndsWith(r, "-chromium") && r[13..] == stem + "-chromium"
  {
    var r := "test-results/" + (stem + "-chromium");
    assert r[..13] == "test-results/";
    assert r[13..] == stem + "-chromium";
    assert r[|r| - 9..] == "-chromium";
  }


  lemma DirNameHasNoSlash(name: string, sanitised: string)
    requires '/' !in name
    requires forall i :: 0 <= i < |sanitised| ==> IsAsciiAlnum(sanitised[i]) || sanitised[i] == '-'
    ensures '/' !in name + "-" + sanitised + "-chromium"
  {
  }

  // ---------------------------------------------------------------------------------------
  // The lines of one attachment, one step and one test
  // ---------------------------------------------------------------------------------------

  /** `         - name (contentType)`, with ` - Path: p` when the path is non-empty. */
  function AttachmentHeadLine(att: Attachment): string {
    AttachmentBullet + att.name + " (" + att.contentType + ")" + (if Truthy(att.path) then PathLabel + att.path.value else "")
  }

  /** The line the save attempt writes: the saved path or the error caught. */
  function SaveLine(stepTitle: Option<string>, stepNumber: nat, base64: string, saver: Saver, outputDir: string): string {
    match stepTitle
    case None => SaveErrorPrefix + UndefinedReplaceError
    case Some(title) =>
      match saver(base64, StepImageName(stepNumber, title, ""), outputDir)
      case Ok(path) => SavedPrefix + path
      case Throws(e) => SaveErrorPrefix + e
  }

  /** Whether the formatter tries to save this attachment. */
  predicate Saves(att: Attachment, saving: Saving) {
    Truthy(att.body) && saving.SaveTo? && att.contentType == "image/png"
  }

  /** The lines one attachment prints: its head, a preview of a non-empty body, and the save result. */
  function AttachmentLines(step: StepRecord, stepNumber: nat, att: Attachment, saving: Saving): (r: seq<string>)
    ensures |r| == 1 + (if Truthy(att.body) then 1 else 0) + (if Saves(att, saving) then 1 else 0)
    ensures r[0] == AttachmentHeadLine(att)
    ensures Truthy(att.body) ==> r[1] == PreviewPrefix + ShowNat(att.bodySize) + PreviewBytes + Take(att.body.value, 50) + Ellipsis
    ensures Saves(att, saving) ==> r[2] == SaveLine(step.title, stepNumber, att.body.value, saving.saver, saving.outputDir)
  {
    var head := [AttachmentHeadLine(att)];
    if !Truthy(att.body) then head
    else
      var preview := [PreviewPrefix + ShowNat(att.bodySize) + PreviewBytes + Take(att.body.value, 50) + Ellipsis];
      if Saves(att, saving) then head + preview + [SaveLine(step.title, stepNumber, att.body.value, saving.saver, saving.outputDir)]
      else head + preview
  }

  /**
   * The preview line of a non-empty body shows the body's size and at most its first 50
   * characters, then `...`: the shown part is a prefix of the body, all of it when the body
   * is shorter than 50 characters.
   */
  lemma PreviewShowsAtMostFifty(step: StepRecord, stepNumber: nat, att: Attachment, saving: Saving)
    requires Truthy(att.body)
    ensures var line := AttachmentLines(step, stepNumber, att, saving)[1];
            var lead := PreviewPrefix + ShowNat(att.bodySize) + PreviewBytes;
            && StartsWith(line, lead) && EndsWith(line, Ellipsis)
            && |line| == |lead| + (if |att.body.value| <= 50 then |att.body.value| else 50) + |Ellipsis|
            && StartsWith(att.body.value, line[|lead|..|line| - |Ellipsis|])
  {
    var line := AttachmentLines(step, stepNumber, att, saving)[1];
    var lead := PreviewPrefix + ShowNat(att.bodySize) + PreviewBytes;
    var shown := Take(att.body.value, 50);
    assert line == lead + shown + Ellipsis;
    assert line[..|lead|] == lead;
    assert line[|line| - |Ellipsis|..] == Ellipsis;
    assert line[|lead|..|line| - |Ellipsis|] == shown;
  }

  /** The attachments of a step that has any. */
  predicate HasAttachments(step: StepRecord) {
    step.attachments.Some? && step.attachments.value != []
  }

  function AttachmentBlocks(step: StepRecord, stepNumber: nat, saving: Saving): seq<seq<string>>
    requires HasAttachments(step)
  {
    var atts := step.attachments.value;
    seq(|atts|, i requires 0 <= i < |atts| => AttachmentLines(step, stepNumber, atts[i], saving))
  }

  /** `printStepAttachments`: nothing without attachments, else `actualResult:` and one block each. */
  function StepAttachmentLines(step: StepRecord, stepNumber: nat, saving: Saving): seq<string> {
    if !HasAttachments(step) then []
    else [ActualResultLine] + Seqs.Flatten(AttachmentBlocks(step, stepNumber, saving))
  }

  /** The lines of one step: number and title, attachments, status, and the error message if any. */
  function StepBlock(step: StepRecord, stepNumber: nat, saving: Saving): seq<string> {
    [StepNumberIndent + NatToString(stepNumber) + ". \"" + Show(step.title) + "\""]
    + StepAttachmentLines(step, stepNumber, saving)
    + [StatusNameLabel + Show(step.status)]
    + (if step.error.Some? then [StepErrorLabel + Show(step.error.value.message)] else [])
  }

  function StepBlocks(allSteps: seq<StepRecord>, saving: Saving): seq<seq<string>> {
    seq(|allSteps|, i requires 0 <= i < |allSteps| => StepBlock(allSteps[i], i + 1, saving))
  }

  /** `Кроки (executed/total):` */
  function StepsHeader(executed: nat, total: nat): string {
    StepsHeaderPrefix + NatToString(executed) + "/" + NatToString(total) + "):"
  }

  /** `printTestSteps`: `Кроки: немає` for no steps, else the counts and one block per step. */
  function TestStepsLines(userSteps: seq<StepRecord>, allSteps: seq<StepRecord>, saving: Saving): seq<string> {
    if |allSteps| == 0 then [NoStepsLine]
    else [StepsHeader(|userSteps|, |allSteps|)] + Seqs.Flatten(StepBlocks(allSteps, saving))
  }

  /** `printTestInfo`: the numbered title, the status (`unknown` when empty) and the test error. */
  function TestInfoLines(test: TestRecord, index: nat): seq<string> {
    [TestLabel + NatToString(index + 1) + ": " + Show(test.title),
     StatusLabel + (if Truthy(test.status) then test.status.value else "unknown")]
    + (if test.error.Some? then [TestErrorLabel + Show(test.error.value.message)] else [])
  }

  /** The listing's step list: the user steps, then an in-progress placeholder per unexecuted planned step. */
  function ListedSteps(test: TestRecord, cwd: string, planner: Planner): seq<StepRecord> {
    Enrich.CombineSteps(Enrich.FilterUserSteps(test.steps.GetOr([])), PlannedStepsOf(test, cwd, planner), InProgressStep)
  }

  /** Reading `test.location.file` or `test.title.replace` throws when either is absent. */
  predicate Crashes(test: TestRecord) {
    test.location.None? || test.title.None?
  }

  function SavingFor(test: TestRecord, env: Env, saver: Saver): Saving
    requires !Crashes(test)
  {
    if env.saveScreenshots == Some("true") then SaveTo(saver, OutputDir(test.location.value.file, test.title.value))
    else NoSaving
  }

  /** One iteration of the `forEach` over the tests. */
  function TestBlock(test: TestRecord, index: nat, env: Env, cwd: string, planner: Planner, saver: Saver): (r: Printed)
    ensures r.thrown <==> Crashes(test)
    ensures |TestInfoLines(test, index)| <= |r.lines| && r.lines[..|TestInfoLines(test, index)|] == TestInfoLines(test, index)
  {
    var info := TestInfoLines(test, index);
    if Crashes(test) then Printed(info, true)
    else
      var userSteps := Enrich.FilterUserSteps(test.steps.GetOr([]));
      Printed(info + TestStepsLines(userSteps, ListedSteps(test, cwd, planner), SavingFor(test, env, saver)), false)
  }

  /** The `forEach` over the tests: blocks in order, ending at the first test that throws. */
  function TestsOutput(tests: seq<TestRecord>, env: Env, cwd: string, planner: Planner, saver: Saver): Printed {
    if tests == [] then Printed([], false)
    else
      var before := TestsOutput(tests[..|tests| - 1], env, cwd, planner, saver);
      if before.thrown then before
      else
        var block := TestBlock(tests[|tests| - 1], |tests| - 1, env, cwd, planner, saver);
        Printed(before.lines + block.lines, block.thrown)
  }

  /** Whether `printTestResults` prints anything at all. */
  predicate Enabled(results: Results, env: Env) {
    env.printTestResults == Some("true") && results.tests.Some?
  }

  /** `printTestResults(result)`: the banner, the tests and, unless one threw, the closing banner. */
  function ReportOutput(results: Results, env: Env, cwd: string, planner: Planner, saver: Saver): Printed {
    if !Enabled(results, env) then Printed([], false)
    else
      var body := TestsOutput(results.tests.value, env, cwd, planner, saver);
      if body.thrown then Printed([DetailsBanner] + body.lines, true)
      else Printed([DetailsBanner] + body.lines + [FinalBanner], false)
  }

  // ---------------------------------------------------------------------------------------
  // The printing loops
  // ---------------------------------------------------------------------------------------

  /** The `forEach` of `printStepAttachments`. */
  method PrintStepAttachments(step: StepRecord, stepNumber: nat, saving: Saving) returns (lines: seq<string>)
    ensures lines == StepAttachmentLines(step, stepNumber, saving)
  {
    if !HasAttachments(step) {
      return [];
    }
    var atts := step.attachments.value;
    ghost var blocks := AttachmentBlocks(step, stepNumber, saving);
    var body: seq<string> := [];
    var i := 0;
    while i < |atts|
      invariant 0 <= i <= |atts|
      invariant body == Seqs.Flatten(blocks[..i])
    {
      Seqs.FlattenSnoc(blocks, i);
      body := body + AttachmentLines(step, stepNumber, atts[i], saving);
      i := i + 1;
    }
    assert blocks[..|atts|] == blocks;
    lines := [ActualResultLine] + body;
  }

  /** One iteration of the `forEach` of `printTestSteps`. */
  method PrintStep(step: StepRecord, stepNumber: nat, saving: Saving) returns (block: seq<string>)
    ensures block == StepBlock(step, stepNumber, saving)
  {
    var attachmentLines := PrintStepAttachments(step, stepNumber, saving);
    block := [StepNumberIndent + NatToString(stepNumber) + ". \"" + Show(step.title) + "\""]
      + attachmentLines
      + [StatusNameLabel + Show(step.status)];
    if step.error.Some? {
      block := block + [StepErrorLabel + Show(step.error.value.message)];
    }
  }

  /** The `forEach` of `printTestSteps`. */
  method PrintTestSteps(userSteps: seq<StepRecord>, allSteps: seq<StepRecord>, saving: Saving) returns (lines: seq<string>)
    ensures lines == TestStepsLines(userSteps, allSteps, saving)
  {
    if |allSteps| == 0 {
      return [NoStepsLine];
    }
    ghost var blocks := StepBlocks(allSteps, saving);
    var body: seq<string> := [];
    var i := 0;
    while i < |allSteps|
      invariant 0 <= i <= |allSteps|
      invariant body == Seqs.Flatten(blocks[..i])
    {
      var block := PrintStep(allSteps[i], i + 1, saving);
      Seqs.FlattenSnoc(blocks, i);
      body := body + block;
      i := i + 1;
    }
    assert blocks[..|allSteps|] == blocks;
    lines := [StepsHeader(|userSteps|, |allSteps|)] + body;
  }

  /** One iteration of the `forEach` over the tests: the info lines, then the steps unless it throws. */
  method PrintTest(test: TestRecord, index: nat, env: Env, cwd: string, planner: Planner, saver: Saver) returns (block: Printed)
    ensures block == TestBlock(test, index, env, cwd, planner, saver)
  {
    var info := TestInfoLines(test, index);
    if test.location.None? || test.title.None? {
      return Printed(info, true);
    }
    var userSteps := Enrich.FilterUserSteps(test.steps.GetOr([]));
    var plannedSteps := PlannedStepsOf(test, cwd, planner);
    var allSteps := Enrich.CombineSteps(userSteps, plannedSteps, InProgressStep);
    var saving := NoSaving;
    if env.saveScreenshots == Some("true") {
      saving := SaveTo(saver, OutputDir(test.location.value.file, test.title.value));
    }
    var stepLines := PrintTestSteps(userSteps, allSteps, saving);
    block := Printed(info + stepLines, false);
  }

  /** `printTestResults`: the gate, then the `forEach` over the tests, which an exception ends. */
  method PrintTestResults(results: Results, env: Env, cwd: string, planner: Planner, saver: Saver) returns (out: Printed)
    ensures out == ReportOutput(results, env, cwd, planner, saver)
  {
    if env.printTestResults != Some("true") || results.tests.None? {
      return Printed([], false);
    }
    var tests := results.tests.value;
    var body: seq<string> := [];
    var i := 0;
    while i < |tests|
      invariant 0 <= i <= |tests|
      invariant TestsOutput(tests[..i], env, cwd, planner, saver) == Printed(body, false)
    {
      var block := PrintTest(tests[i], i, env, cwd, planner, saver);
      TestsOutputSnoc(tests, i, env, cwd, planner, saver);
      if block.thrown {
        ThrownIsFinal(tests, i + 1, env, cwd, planner, saver);
        return Printed([DetailsBanner] + body + block.lines, true);
      }
      body := body + block.lines;
      i := i + 1;
    }
    assert tests[..|tests|] == tests;
    out := Printed([DetailsBanner] + body + [FinalBanner], false);
  }

  // ---------------------------------------------------------------------------------------
  // What the listing promises
  // ---------------------------------------------------------------------------------------

  /** One more test extends the listing by its block, unless an earlier test threw. */
  lemma TestsOutputSnoc(tests: seq<TestRecord>, i: nat, env: Env, cwd: string, planner: Planner, saver: Saver)
    requires i < |tests|
    ensures var before := TestsOutput(tests[..i], env, cwd, planner, saver);
      var block := TestBlock(tests[i], i, env, cwd, planner, saver);
      TestsOutput(tests[..i + 1], env, cwd, planner, saver)
        == if before.thrown then before else Printed(before.lines + block.lines, block.thrown)
  {
    assert tests[..i + 1][..i] == tests[..i];
  }

  /** Once a test has thrown, no later test prints anything. */
  lemma {:induction false} ThrownIsFinal(tests: seq<TestRecord>, n: nat, env: Env, cwd: string, planner: Planner, saver: Saver)
    requires n <= |tests| && TestsOutput(tests[..n], env, cwd, planner, saver).thrown
    ensures TestsOutput(tests, env, cwd, planner, saver) == TestsOutput(tests[..n], env, cwd, planner, saver)
    decreases |tests| - n
  {
    if n < |tests| {
      var next := tests[..n + 1];
      assert next[..|next| - 1] == tests[..n];
      ThrownIsFinal(tests, n + 1, env, cwd, planner, saver);
    } else {
      assert tests[..n] == tests;
    }
  }

  /** No test lacks a location or a title. */
  predicate NoneCrashes(tests: seq<TestRecord>) {
    forall i :: 0 <= i < |tests| ==> !Crashes(tests[i])
  }

  lemma NoneCrashesSnoc(tests: seq<TestRecord>)
    requires tests != []
    ensures NoneCrashes(tests) <==> NoneCrashes(tests[..|tests| - 1]) && !Crashes(tests[|tests| - 1])
  {
    var init := tests[..|tests| - 1];
    if NoneCrashes(init) && !Crashes(tests[|tests| - 1]) {
      forall i | 0 <= i < |tests|
        ensures !Crashes(tests[i])
      {
        if i < |init| {
          assert tests[i] == init[i];
        }
      }
    }
  }

  /** The listing throws exactly when some test lacks a location or a title. */
  lemma {:induction false} TestsOutputThrowsIff(tests: seq<TestRecord>, env: Env, cwd: string, planner: Planner, saver: Saver)
    ensures TestsOutput(tests, env, cwd, planner, saver).thrown <==> !NoneCrashes(tests)
  {
    if tests != [] {
      TestsOutputThrowsIff(tests[..|tests| - 1], env, cwd, planner, saver);
      NoneCrashesSnoc(tests);
    }
  }

  /** The printed lines of every test's block, in order. */
  function Blocks(tests: seq<TestRecord>, env: Env, cwd: string, planner: Planner, saver: Saver): seq<seq<string>> {
    seq(|tests|, i requires 0 <= i < |tests| => TestBlock(tests[i], i, env, cwd, planner, saver).lines)
  }

  /** Flattening the blocks of a list is flattening those of all but the last test, then the last block. */
  lemma BlocksSnoc(tests: seq<TestRecord>, env: Env, cwd: string, planner: Planner, saver: Saver)
    requires tests != []
    ensures var init := tests[..|tests| - 1];
      Seqs.Flatten(Blocks(tests, env, cwd, planner, saver))
        == Seqs.Flatten(Blocks(init, env, cwd, planner, saver)) + TestBlock(tests[|init|], |init|, env, cwd, planner, saver).lines
  {
    var blocks := Blocks(tests, env, cwd, planner, saver);
    assert blocks[..|blocks| - 1] == Blocks(tests[..|tests| - 1], env, cwd, planner, saver);
  }

  /** Without a crash, the listing is every test's block, in order. */
  lemma {:induction false} TestsOutputBlocks(tests: seq<TestRecord>, env: Env, cwd: string, planner: Planner, saver: Saver)
    requires NoneCrashes(tests)
    ensures TestsOutput(tests, env, cwd, planner, saver) == Printed(Seqs.Flatten(Blocks(tests, env, cwd, planner, saver)), false)
  {
    if tests != [] {
      var init := tests[..|tests| - 1];
      NoneCrashesSnoc(tests);
      TestsOutputBlocks(init, env, cwd, planner, saver);
      BlocksSnoc(tests, env, cwd, planner, saver);
    }
  }

  /** With PRINT_TEST_RESULTS other than `true`, or no `tests` array, nothing is printed. */
  lemma DisabledPrintsNothing(results: Results, env: Env, cwd: string, planner: Planner, saver: Saver)
    requires !Enabled(results, env)
    ensures ReportOutput(results, env, cwd, planner, saver) == Printed([], false)
  {
  }

  /**
   * An enabled listing opens with the details banner, and it ends with the closing banner
   * exactly when no test lacks a location or a title.
   */
  lemma ReportBanners(results: Results, env: Env, cwd: string, planner: Planner, saver: Saver)
    requires Enabled(results, env)
    ensures var out := ReportOutput(results, env, cwd, planner, saver);
      && out.lines != [] && out.lines[0] == DetailsBanner
      && (!out.thrown <==> NoneCrashes(results.tests.value))
      && (!out.thrown ==> out.lines[|out.lines| - 1] == FinalBanner)
  {
    TestsOutputThrowsIff(results.tests.value, env, cwd, planner, saver);
  }

  /** The step list header reads `Кроки: немає` exactly when the test has no steps at all. */
  lemma NoStepsIff(userSteps: seq<StepRecord>, allSteps: seq<StepRecord>, saving: Saving)
    ensures TestStepsLines(userSteps, allSteps, saving)[0] == NoStepsLine <==> allSteps == []
  {
    if allSteps != [] {
      var header := StepsHeader(|userSteps|, |allSteps|);
      assert header[7] == ' ' && NoStepsLine[7] == ':';
    }
  }

  /**
   * The listed steps of a test are its user steps, unchanged and first, then an in-progress
   * placeholder for each planned title from there on; so the header's executed count never
   * exceeds its total.
   */
  lemma ListedStepsShape(test: TestRecord, cwd: string, planner: Planner)
    ensures var user := Enrich.FilterUserSteps(test.steps.GetOr([]));
      var all := ListedSteps(test, cwd, planner);
      var planned := PlannedStepsOf(test, cwd, planner);
      && |user| <= |all| && |all| == (if |planned| > |user| then |planned| else |user|)
      && all[..|user|] == user
      && forall k :: |user| <= k < |all| ==> all[k] == InProgressStep(planned[k])
  {
  }

  /**
   * A screenshot is saved only for an attachment with a non-empty body whose type is
   * `image/png`, and only when SAVE_SCREENSHOTS is `true`; it goes to the test's output
   * directory under the step's image name.
   */
  lemma SavedScreenshot(test: TestRecord, env: Env, saver: Saver, step: StepRecord, stepNumber: nat, att: Attachment)
    requires !Crashes(test)
    ensures var r := AttachmentLines(step, stepNumber, att, SavingFor(test, env, saver));
      && (|r| == 3 <==> env.saveScreenshots == Some("true") && att.contentType == "image/png" && Truthy(att.body))
      && (|r| == 3 && step.title.Some? ==>
            r[2] == SaveLine(step.title, stepNumber, att.body.value, saver, OutputDir(test.location.value.file, test.title.value)))
  {
  }
}
