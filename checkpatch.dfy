/**
 * The whitespace fixer of contrib/checkpatch.py: the per-line trailing
 * whitespace check, the line pass over a file's text, the missing final
 * newline check, the text pipeline of check_file and the exit status of
 * main. Reading and writing files, the git subprocess and printing are not
 * modelled: a file is the text it contains.
 */
module Checkpatch {
  import opened Wrappers

  // ---------------------------------------------------------------------
  // Python's character classes and the str methods the script uses
  // ---------------------------------------------------------------------

  /** Python's str.isspace() on one character; str.rstrip() with no
      argument removes exactly these characters. */
  predicate IsSpace(c: char) {
    ('\t' <= c <= '\r') || ('\U{1c}' <= c <= '\U{1f}') || c == ' '
    || c == '\U{85}' || c == '\U{a0}' || c == '\U{1680}'
    || ('\U{2000}' <= c <= '\U{200a}') || c == '\U{2028}' || c == '\U{2029}'
    || c == '\U{202f}' || c == '\U{205f}' || c == '\U{3000}'
  }

  /** The characters at which Python's str.splitlines() ends a line
      ("\r\n" is one boundary made of two characters). */
  predicate IsLineBoundary(c: char) {
    c == '\n' || c == '\r' || c == '\U{b}' || c == '\U{c}'
    || ('\U{1c}' <= c <= '\U{1e}') || c == '\U{85}' || c == '\U{2028}' || c == '\U{2029}'
  }

  predicate AllSpace(s: string) {
    forall i :: 0 <= i < |s| ==> IsSpace(s[i])
  }

  predicate NoBoundary(s: string) {
    forall i :: 0 <= i < |s| ==> !IsLineBoundary(s[i])
  }

  /** str.rstrip(): the longest prefix that does not end in whitespace. */
  function RStrip(s: string): (r: string)
    ensures |r| <= |s| && r == s[..|r|]
    ensures r == [] || !IsSpace(r[|r| - 1])
    ensures forall i :: |r| <= i < |s| ==> IsSpace(s[i])
  {
    if s == [] || !IsSpace(s[|s| - 1]) then s else RStrip(s[..|s| - 1])
  }

  lemma {:induction false} RStripEmptyIff(s: string)
    ensures RStrip(s) == [] <==> AllSpace(s)
  {
    var r := RStrip(s);
    if r != [] {
      assert s[|r| - 1] == r[|r| - 1];
    }
  }

  /** Index of the first line boundary in s, or |s| when there is none. */
  function LineEnd(s: string): (k: nat)
    ensures k <= |s| && NoBoundary(s[..k])
    ensures k < |s| ==> IsLineBoundary(s[k])
  {
    if s == [] || IsLineBoundary(s[0]) then 0
    else
      var k := 1 + LineEnd(s[1..]);
      assert s[..k] == [s[0]] + s[1..][..k - 1];
      k
  }

  lemma {:induction false} LineEndIsFirstBoundary(s: string, k: nat)
    requires k <= |s| && NoBoundary(s[..k])
    requires k < |s| ==> IsLineBoundary(s[k])
    ensures LineEnd(s) == k
    decreases k
  {
    if k > 0 {
      assert s[..k][0] == s[0];
      assert s[1..][..k - 1] == s[..k][1..];
      LineEndIsFirstBoundary(s[1..], k - 1);
    }
  }

  /** Where the line after the boundary at k starts. */
  function NextLineStart(s: string, k: nat): (n: nat)
    requires k < |s|
    ensures k < n <= |s|
  {
    if s[k] == '\r' && k + 1 < |s| && s[k + 1] == '\n' then k + 2 else k + 1
  }

  /** str.splitlines(): the lines of s without their terminators; a final
      terminator does not start an extra empty line. */
  function SplitLines(s: string): (lines: seq<string>)
    ensures forall i :: 0 <= i < |lines| ==> NoBoundary(lines[i])
    decreases |s|
  {
    if s == [] then []
    else
      var k := LineEnd(s);
      if k == |s| then [s]
      else [s[..k]] + SplitLines(s[NextLineStart(s, k)..])
  }

  /** "\n".join(lines). */
  function Join(lines: seq<string>): string {
    if lines == [] then []
    else if |lines| == 1 then lines[0]
    else lines[0] + "\n" + Join(lines[1..])
  }

  /** What splitting a joined text gives back: the lines themselves, except
      that a last empty line disappears into the terminator before it. */
  function DropLastEmpty(lines: seq<string>): seq<string> {
    if lines != [] && lines[|lines| - 1] == [] then lines[..|lines| - 1] else lines
  }

  lemma LineEndOfTerminated(x: string, rest: string)
    requires NoBoundary(x)
    ensures LineEnd(x + "\n" + rest) == |x|
    ensures NextLineStart(x + "\n" + rest, |x|) == |x| + 1
    ensures (x + "\n" + rest)[..|x|] == x && (x + "\n" + rest)[|x| + 1..] == rest
  {
    var s := x + "\n" + rest;
    assert s[..|x|] == x;
    LineEndIsFirstBoundary(s, |x|);
  }

  lemma {:induction false} SplitJoin(lines: seq<string>)
    requires forall i :: 0 <= i < |lines| ==> NoBoundary(lines[i])
    ensures SplitLines(Join(lines)) == DropLastEmpty(lines)
    decreases |lines|
  {
    if |lines| == 1 {
      var x := lines[0];
      if x != [] {
        assert x[..|x|] == x;
        LineEndIsFirstBoundary(x, |x|);
      }
    } else if |lines| > 1 {
      var x, rest := lines[0], Join(lines[1..]);
      assert Join(lines) == x + "\n" + rest;
      SplitTerminated(x, rest);
      SplitJoin(lines[1..]);
      DropLastEmptyCons(lines);
    }
  }

  /** A line followed by "\n" splits off as the first line. */
  lemma SplitTerminated(x: string, rest: string)
    requires NoBoundary(x)
    ensures SplitLines(x + "\n" + rest) == [x] + SplitLines(rest)
  {
    LineEndOfTerminated(x, rest);
  }

  lemma DropLastEmptyCons(lines: seq<string>)
    requires |lines| > 1
    ensures DropLastEmpty(lines) == [lines[0]] + DropLastEmpty(lines[1..])
  {
    assert lines[1..][|lines| - 2] == lines[|lines| - 1];
    assert lines[..|lines| - 1] == [lines[0]] + lines[1..][..|lines| - 2];
    assert lines == [lines[0]] + lines[1..];
  }

  lemma {:induction false} SplitAppendNewline(s: string)
    ensures SplitLines(s + "\n") == SplitLines(s)
         || SplitLines(s + "\n") == SplitLines(s) + [[]]
    decreases |s|
  {
    var t := s + "\n";
    if s == [] {
      assert LineEnd(t) == 0;
      assert t[NextLineStart(t, 0)..] == [];
    } else {
      var k := AppendNewlineLineEnd(s);
      if k == |s| {
        assert t[NextLineStart(t, k)..] == [];
        assert SplitLines(t) == [t[..k]];
      } else if s[k] == '\r' && k + 1 == |s| {
        assert t[NextLineStart(t, k)..] == [];
        assert s[NextLineStart(s, k)..] == [];
        assert SplitLines(t) == [s[..k]];
      } else {
        var n := NextLineStart(s, k);
        assert NextLineStart(t, k) == n;
        assert t[n..] == s[n..] + "\n";
        assert SplitLines(t) == [s[..k]] + SplitLines(s[n..] + "\n");
        SplitAppendNewline(s[n..]);
      }
    }
  }

  /** Appending "\n" to non-empty text does not move the end of its first
      line. */
  lemma AppendNewlineLineEnd(s: string) returns (k: nat)
    requires s != []
    ensures k == LineEnd(s) && k == LineEnd(s + "\n") && (s + "\n")[..k] == s[..k]
  {
    k := LineEnd(s);
    var t := s + "\n";
    assert t[..k] == s[..k];
    LineEndIsFirstBoundary(t, k);
  }

  lemma {:induction false} JoinHoldsEveryLine(lines: seq<string>, i: nat)
    requires i < |lines|
    ensures |Join(lines)| >= |lines[i]|
    decreases |lines|
  {
    if i > 0 { JoinHoldsEveryLine(lines[1..], i - 1); }
  }

  // ---------------------------------------------------------------------
  // check_trailing_w and checks_lines
  // ---------------------------------------------------------------------

  /** A check's answer: (None, None) when the input is correct, otherwise an
      error message and the corrected text. */
  datatype CheckResult = CheckResult(error: Option<string>, fixed: Option<string>)

  const Correct := CheckResult(None, None)

  /** Python truthiness of an optional string: None and "" are both false. */
  predicate Truthy(o: Option<string>) {
    o.Some? && o.value != []
  }

  /** check_trailing_w: a line ending in whitespace gets the message and
      its stripped form. */
  function CheckTrailingW(line: string): (r: CheckResult)
    ensures r == Correct <==> line == [] || !IsSpace(line[|line| - 1])
    ensures r != Correct ==> r.error == Some("trailing witespace") && r.fixed.Some?
    ensures r.fixed.Some? ==> var f := r.fixed.value;
      |f| < |line| && f == line[..|f|] && (f == [] || !IsSpace(f[|f| - 1]))
      && forall i :: |f| <= i < |line| ==> IsSpace(line[i])
  {
    var stripped := RStrip(line);
    if stripped != line then CheckResult(Some("trailing witespace"), Some(RStrip(line)))
    else Correct
  }

  /** checks_lines replaces a line only when the fixed line is truthy. */
  predicate Rewritten(line: string) {
    Truthy(CheckTrailingW(line).fixed)
  }

  /** The line as checks_lines leaves it. */
  function FixLine(line: string): string {
    var r := CheckTrailingW(line);
    if Truthy(r.fixed) then r.fixed.value else line
  }

  lemma RewrittenIff(line: string)
    ensures Rewritten(line) <==> !AllSpace(line) && IsSpace(line[|line| - 1])
    ensures Rewritten(line) ==>
      FixLine(line) == RStrip(line) && FixLine(line) != [] && !IsSpace(FixLine(line)[|FixLine(line)| - 1])
    ensures !Rewritten(line) ==> FixLine(line) == line
  {
    RStripEmptyIff(line);
  }

  /** A whitespace-only line strips to "", which is falsy, so it is left as
      it is (and is not counted). */
  lemma WhitespaceOnlyLineKept(line: string)
    requires line != [] && AllSpace(line)
    ensures !Rewritten(line) && FixLine(line) == line
    ensures CheckTrailingW(line) == CheckResult(Some("trailing witespace"), Some([]))
  {
    RStripEmptyIff(line);
  }

  lemma FixLineIsFinal(line: string)
    ensures !Rewritten(FixLine(line))
    ensures NoBoundary(line) ==> NoBoundary(FixLine(line))
  {
    RewrittenIff(line);
    if Rewritten(line) {
      var f := FixLine(line);
      assert f == line[..|f|];
      assert CheckTrailingW(f) == Correct;
    }
  }

  function FixLines(lines: seq<string>): (r: seq<string>)
    ensures |r| == |lines|
    ensures forall i :: 0 <= i < |lines| ==> r[i] == FixLine(lines[i])
  {
    seq(|lines|, i requires 0 <= i < |lines| => FixLine(lines[i]))
  }

  /** How many of the lines checks_lines rewrites. */
  function CountRewritten(lines: seq<string>): nat {
    if lines == [] then 0
    else CountRewritten(lines[..|lines| - 1]) + (if Rewritten(lines[|lines| - 1]) then 1 else 0)
  }

  lemma {:induction false} CountRewrittenZero(lines: seq<string>)
    ensures CountRewritten(lines) == 0 <==> forall i :: 0 <= i < |lines| ==> !Rewritten(lines[i])
    decreases |lines|
  {
    if lines != [] {
      var init := lines[..|lines| - 1];
      CountRewrittenZero(init);
      assert forall i :: 0 <= i < |init| ==> init[i] == lines[i];
    }
  }

  /** What checks_lines returns for a file's text. */
  function ChecksLinesOf(text: string): CheckResult {
    var lines := SplitLines(text);
    if CountRewritten(lines) > 0 then CheckResult(None, Some(Join(FixLines(lines))))
    else Correct
  }

  lemma ChecksLinesOfUnfolds(text: string)
    ensures ChecksLinesOf(text) ==
      if CountRewritten(SplitLines(text)) > 0 then CheckResult(None, Some(Join(FixLines(SplitLines(text)))))
      else CheckResult(None, None)
  {
  }

  /** The lines with the first n of them put through the line check. */
  ghost function PartlyFixed(lines: seq<string>, n: nat): (r: seq<string>)
    requires n <= |lines|
    ensures |r| == |lines|
  {
    seq(|lines|, k requires 0 <= k < |lines| => if k < n then FixLine(lines[k]) else lines[k])
  }

  /** One pass of the loop of checks_lines keeps its two invariants. */
  lemma PartlyFixedStep(original: seq<string>, lines: seq<string>, n: nat, numErrors: nat)
    requires n < |original| && lines == PartlyFixed(original, n)
    requires numErrors == CountRewritten(original[..n])
    ensures |lines| == |original| && lines[n] == original[n]
    ensures var check := CheckTrailingW(lines[n]);
      && (Truthy(check.fixed) ==>
            lines[n := check.fixed.value] == PartlyFixed(original, n + 1)
            && numErrors + 1 == CountRewritten(original[..n + 1]))
      && (!Truthy(check.fixed) ==>
            lines == PartlyFixed(original, n + 1)
            && numErrors == CountRewritten(original[..n + 1]))
  {
    assert original[..n + 1][..n] == original[..n];
    assert lines[n] == original[n];
    var check := CheckTrailingW(original[n]);
    if Truthy(check.fixed) {
      assert lines[n := check.fixed.value] == PartlyFixed(original, n + 1);
    } else {
      assert lines == PartlyFixed(original, n + 1);
    }
  }

  lemma PartlyFixedEnds(lines: seq<string>)
    ensures PartlyFixed(lines, 0) == lines
    ensures PartlyFixed(lines, |lines|) == FixLines(lines)
    ensures lines[..0] == [] && lines[..|lines|] == lines
  {
  }

  /** checks_lines: every line is put through check_trailing_w, and a line
      is replaced by its truthy fix, counting one error per replacement. */
  method ChecksLines(text: string) returns (r: CheckResult)
    ensures r == ChecksLinesOf(text)
    ensures r.error == None
  {
    var numErrors := 0;
    var lines := SplitLines(text);
    ghost var original := lines;
    PartlyFixedEnds(original);
    for lineno := 1 to |lines| + 1
      invariant lines == PartlyFixed(original, lineno - 1)
      invariant numErrors == CountRewritten(original[..lineno - 1])
    {
      PartlyFixedStep(original, lines, lineno - 1, numErrors);
      var line := lines[lineno - 1];
      // line_checks holds one check, check_trailing_w; its message is printed
      var check := CheckTrailingW(line);
      if Truthy(check.fixed) {
        lines := lines[lineno - 1 := check.fixed.value];
        numErrors := numErrors + 1;
      }
    }
    ChecksLinesOfUnfolds(text);
    if numErrors > 0 {
      r := CheckResult(None, Some(Join(lines)));
    } else {
      r := CheckResult(None, None);
    }
  }

  /** The line pass keeps the number of lines, leaves correct and
      whitespace-only lines alone, and every line it replaces ends without
      trailing whitespace. */
  lemma FixLinesRewrites(lines: seq<string>)
    ensures |FixLines(lines)| == |lines|
    ensures forall i :: 0 <= i < |lines| ==> (FixLines(lines)[i] != lines[i] <==> Rewritten(lines[i]))
    ensures forall i :: 0 <= i < |lines| && Rewritten(lines[i]) ==>
      var f := FixLines(lines)[i]; f == RStrip(lines[i]) && f != [] && !IsSpace(f[|f| - 1])
    ensures forall i :: 0 <= i < |lines| && AllSpace(lines[i]) ==> FixLines(lines)[i] == lines[i]
    ensures forall i :: 0 <= i < |lines| && (lines[i] == [] || !IsSpace(lines[i][|lines[i]| - 1])) ==>
      FixLines(lines)[i] == lines[i]
  {
    forall i | 0 <= i < |lines| { RewrittenIff(lines[i]); }
  }

  /** checks_lines reports no error message of its own, and returns fixed
      text, which is then truthy, exactly when some line was replaced. */
  lemma ChecksLinesResult(text: string)
    ensures ChecksLinesOf(text).error == None
    ensures ChecksLinesOf(text).fixed.None? <==>
      forall i :: 0 <= i < |SplitLines(text)| ==> !Rewritten(SplitLines(text)[i])
    ensures ChecksLinesOf(text).fixed.Some? ==>
      ChecksLinesOf(text) == CheckResult(None, Some(Join(FixLines(SplitLines(text)))))
      && Truthy(ChecksLinesOf(text).fixed)
  {
    var lines := SplitLines(text);
    CountRewrittenZero(lines);
    ChecksLinesOfUnfolds(text);
    if CountRewritten(lines) > 0 {
      var i :| 0 <= i < |lines| && Rewritten(lines[i]);
      assert FixLines(lines)[i] != [];
      JoinHoldsEveryLine(FixLines(lines), i);
    }
  }

  // ---------------------------------------------------------------------
  // check_trailing_nl, check_file and main
  // ---------------------------------------------------------------------

  /** check_trailing_nl: non-empty text not ending in '\n' gets one. */
  function CheckTrailingNl(text: string): (r: CheckResult)
    ensures r.fixed.Some? <==> text != [] && text[|text| - 1] != '\n'
    ensures r.fixed.Some? ==>
      r.fixed.value == text + "\n" && r.error == Some("no newline at end of file")
    ensures r.fixed.None? ==> r == Correct
  {
    if text != [] && text[|text| - 1] != '\n' then
      CheckResult(Some("no newline at end of file"), Some(text + "\n"))
    else Correct
  }

  /** The entries of file_checks, in order. */
  datatype FileCheck = LinesCheck | TrailingNlCheck

  const FileChecks: seq<FileCheck> := [LinesCheck, TrailingNlCheck]

  function ApplyCheck(check: FileCheck, text: string): CheckResult {
    match check
    case LinesCheck => ChecksLinesOf(text)
    case TrailingNlCheck => CheckTrailingNl(text)
  }

  /** The loop of check_file over a list of checks: each truthy fix becomes
      the text seen by the next check and counts one error. */
  function RunChecks(checks: seq<FileCheck>, text: string): (r: (string, nat))
    ensures r.1 <= |checks|
  {
    if checks == [] then (text, 0)
    else
      var before := RunChecks(checks[..|checks| - 1], text);
      var check := ApplyCheck(checks[|checks| - 1], before.0);
      if Truthy(check.fixed) then (check.fixed.value, before.1 + 1) else before
  }

  lemma RunChecksStep(checks: seq<FileCheck>, i: nat, text: string)
    requires i < |checks|
    ensures RunChecks(checks[..i + 1], text) ==
      var before := RunChecks(checks[..i], text);
      var check := ApplyCheck(checks[i], before.0);
      if Truthy(check.fixed) then (check.fixed.value, before.1 + 1) else before
  {
    assert checks[..i + 1][..i] == checks[..i];
  }

  /** Calling one entry of file_checks. */
  method RunCheck(check: FileCheck, text: string) returns (r: CheckResult)
    ensures r == ApplyCheck(check, text)
  {
    match check
    case LinesCheck => r := ChecksLines(text);
    case TrailingNlCheck => r := CheckTrailingNl(text);
  }

  /** The corrected text and the error count of check_file. */
  function Pipeline(text: string): (string, nat) {
    RunChecks(FileChecks, text)
  }

  /** check_file without its I/O: `isFile` says whether the path names a
      regular file, `text` is what reading it gives, `written` is what the
      fix mode would write back. */
  method CheckFile(isFile: bool, fix: bool, text: string) returns (rc: int, written: Option<string>)
    ensures rc == (if isFile && Pipeline(text).1 > 0 then -1 else 0)
    ensures written == (if isFile && fix && Pipeline(text).1 > 0 then Some(Pipeline(text).0) else None)
  {
    if !isFile {
      return 0, None;
    }
    var numErrors := 0;
    var fileText := text;
    for i := 0 to |FileChecks|
      invariant (fileText, numErrors) == RunChecks(FileChecks[..i], text)
    {
      RunChecksStep(FileChecks, i, text);
      var check := RunCheck(FileChecks[i], fileText);
      if Truthy(check.fixed) {
        // the error message, when there is one, is printed here
        fileText := check.fixed.value;
        numErrors := numErrors + 1;
      }
    }
    assert FileChecks[..|FileChecks|] == FileChecks;
    written := if fix && numErrors > 0 then Some(fileText) else None;
    rc := if numErrors == 0 then 0 else -1;
  }

  lemma PipelineSteps(text: string)
    ensures var lines := ChecksLinesOf(text);
      var mid := if Truthy(lines.fixed) then lines.fixed.value else text;
      var nl := CheckTrailingNl(mid);
      Pipeline(text) == (if Truthy(nl.fixed) then nl.fixed.value else mid,
                         (if Truthy(lines.fixed) then 1 else 0) + (if Truthy(nl.fixed) then 1 else 0))
  {
    assert FileChecks[..1] == [LinesCheck];
    assert [LinesCheck][..0] == [];
    assert RunChecks([LinesCheck], text) ==
      (var r := ChecksLinesOf(text); if Truthy(r.fixed) then (r.fixed.value, 1) else (text, 0));
  }

  /** A text the whitespace fixer has nothing to say about. */
  predicate TextCorrect(text: string) {
    (forall i :: 0 <= i < |SplitLines(text)| ==> !Rewritten(SplitLines(text)[i]))
    && (text == [] || text[|text| - 1] == '\n')
  }

  lemma AppendNewlineKeepsLines(s: string)
    requires forall i :: 0 <= i < |SplitLines(s)| ==> !Rewritten(SplitLines(s)[i])
    ensures forall i :: 0 <= i < |SplitLines(s + "\n")| ==> !Rewritten(SplitLines(s + "\n")[i])
  {
    SplitAppendNewline(s);
    assert !Rewritten([]);
  }

  /** The text after the line pass: its every line is one the pass would
      leave alone. */
  function AfterLinePass(text: string): string {
    var r := ChecksLinesOf(text);
    if Truthy(r.fixed) then r.fixed.value else text
  }

  lemma LinePassLinesFinal(text: string)
    ensures var mid := AfterLinePass(text);
      forall i :: 0 <= i < |SplitLines(mid)| ==> !Rewritten(SplitLines(mid)[i])
  {
    var lines := SplitLines(text);
    if Truthy(ChecksLinesOf(text).fixed) {
      var fixed := FixLines(lines);
      forall i | 0 <= i < |fixed| ensures !Rewritten(fixed[i]) && NoBoundary(fixed[i]) {
        FixLineIsFinal(lines[i]);
      }
      SplitJoin(fixed);
    } else {
      CountRewrittenZero(lines);
    }
  }

  /** Every line check_file leaves is free of (non-blank) trailing
      whitespace, and the text ends in a newline unless it is empty. */
  lemma PipelineOutputCorrect(text: string)
    ensures TextCorrect(Pipeline(text).0)
  {
    PipelineSteps(text);
    var mid := AfterLinePass(text);
    LinePassLinesFinal(text);
    if CheckTrailingNl(mid).fixed.Some? {
      AppendNewlineKeepsLines(mid);
    }
  }

  lemma CorrectTextIsFixpoint(text: string)
    requires TextCorrect(text)
    ensures Pipeline(text) == (text, 0)
  {
    PipelineSteps(text);
    CountRewrittenZero(SplitLines(text));
  }

  /** Running the fixer again on its own output finds nothing to fix. */
  lemma PipelineIdempotent(text: string)
    ensures Pipeline(Pipeline(text).0) == (Pipeline(text).0, 0)
  {
    PipelineOutputCorrect(text);
    CorrectTextIsFixpoint(Pipeline(text).0);
  }

  /** check_file counts one error per check that returned fixed text, so a
      file has at most two, and none exactly when it was already correct. */
  lemma PipelineErrorCount(text: string)
    ensures Pipeline(text).1 <= 2
    ensures Pipeline(text).1 == 0 <==> TextCorrect(text)
    ensures Pipeline(text).1 == 0 ==> Pipeline(text).0 == text
  {
    PipelineSteps(text);
    ChecksLinesResult(text);
    if TextCorrect(text) {
      CorrectTextIsFixpoint(text);
    } else if !Truthy(ChecksLinesOf(text).fixed) {
      assert ChecksLinesOf(text).fixed.None?;
      assert forall i :: 0 <= i < |SplitLines(text)| ==> !Rewritten(SplitLines(text)[i]);
      assert text != [] && text[|text| - 1] != '\n';
      assert AfterLinePass(text) == text;
    }
  }

  /** Python's built-in min on two ints. */
  function Min(a: int, b: int): int {
    if b < a then b else a
  }

  /** functools.reduce(min, results, acc). */
  function ReduceMin(acc: int, results: seq<int>): (r: int)
    decreases |results|
    ensures r <= acc && forall i :: 0 <= i < |results| ==> r <= results[i]
    ensures r == acc || r in results
  {
    if results == [] then acc
    else ReduceMin(Min(acc, results[0]), results[1..])
  }

  /** main's exit status from the per-file results of check_file. */
  function MainResult(results: seq<int>): (rc: int)
    requires forall i :: 0 <= i < |results| ==> results[i] == 0 || results[i] == -1
    ensures rc == -1 <==> -1 in results
    ensures rc == 0 <==> -1 !in results
  {
    ReduceMin(0, results)
  }
}
