/** The text helpers the three pull-request scripts share, each script holding
    its own identical copy: the unified-diff digest of the changed files, the
    per-file summary, the linked-issue token extractor, and the context every
    prompt is built from, with the rule that picks which change signal a
    prompt uses. */
module PrHelpers {
  import opened Base
  import opened Text

  /** One entry of the pull request's file list. `status` and `patch` may be
      missing; GitHub leaves the patch out for binary or very large changes. */
  datatype FileEntry = FileEntry(
    filename: string,
    status: Option<string>,
    additions: int,
    deletions: int,
    patch: Option<string>)

  /** `x or ""` for a string that may be `None`. */
  function OrEmpty(x: Option<string>): string {
    if x.Some? then x.value else ""
  }

  /** The status as an f-string prints it: `None` shows as "None". */
  function ShowStatus(status: Option<string>): string {
    if status.Some? then status.value else "None"
  }

  // ---------------------------------------------------------------------------
  // build_unified_diff
  // ---------------------------------------------------------------------------

  /** The `max_chars` default of the two stand-alone scripts. */
  const DefaultMaxDiffChars := 20000

  const TruncationMarker := "\n# [diff truncated]\n"

  /** A file's two header lines and its change line, without the change
      line's final newline. */
  function Heading(f: FileEntry): string {
    "--- a/" + f.filename + "\n+++ b/" + f.filename + "\n# changes: status=" + ShowStatus(f.status)
    + " additions=" + IntToString(f.additions) + " deletions=" + IntToString(f.deletions)
  }

  /** The piece one file contributes: heading, newline, patch (empty when
      missing), newline. */
  function DiffPart(f: FileEntry): string {
    Heading(f) + "\n" + OrEmpty(f.patch) + "\n"
  }

  function DiffParts(files: seq<FileEntry>): (parts: seq<string>)
    ensures |parts| == |files|
  {
    if files == [] then [] else DiffParts(files[..|files| - 1]) + [DiffPart(files[|files| - 1])]
  }

  /** One piece per file, in file order. */
  lemma {:induction false} DiffPartsAt(files: seq<FileEntry>, i: nat)
    requires i < |files|
    ensures DiffParts(files)[i] == DiffPart(files[i])
  {
    if i < |files| - 1 {
      DiffPartsAt(files[..|files| - 1], i);
    }
  }

  /** The pieces joined by newlines and stripped. */
  function Combined(files: seq<FileEntry>): string {
    Strip(Join(DiffParts(files), "\n"))
  }

  /** `s[:n]`, negative `n` counting from the end. */
  function PyPrefix(s: string, n: int): (r: string)
    ensures |r| <= |s| && forall i :: 0 <= i < |r| ==> r[i] == s[i]
    ensures 0 <= n <= |s| ==> |r| == n
  {
    if n >= 0 then (if n <= |s| then s[..n] else s)
    else if |s| + n >= 0 then s[..|s| + n]
    else []
  }

  /** What `build_unified_diff(files, max_chars)` returns. */
  function UnifiedDiff(files: seq<FileEntry>, maxChars: int): string {
    var combined := Combined(files);
    if combined == "" then ""
    else if |combined| > maxChars then PyPrefix(combined, maxChars) + TruncationMarker
    else combined
  }

  /** `build_unified_diff`: one piece per file appended in a loop, then the
      join, strip and truncation. */
  method BuildUnifiedDiff(files: seq<FileEntry>, maxChars: int) returns (r: string)
    ensures r == UnifiedDiff(files, maxChars)
  {
    var parts: seq<string> := [];
    var i := 0;
    while i < |files|
      invariant 0 <= i <= |files|
      invariant parts == DiffParts(files[..i])
    {
      assert files[..i + 1][..i] == files[..i];
      parts := parts + [DiffPart(files[i])];
      i := i + 1;
    }
    assert files[..|files|] == files;
    var combined := Strip(Join(parts, "\n"));
    if combined == "" {
      return "";
    }
    if |combined| > maxChars {
      combined := PyPrefix(combined, maxChars) + TruncationMarker;
    }
    return combined;
  }

  /** A heading starts with a dash and ends with a digit. */
  lemma HeadingTrimmed(f: FileEntry)
    ensures Heading(f) != [] && Trimmed(Heading(f))
  {
    var h := Heading(f);
    var d := IntToString(f.deletions);
    assert h[0] == '-';
    assert h[|h| - 1] == d[|d| - 1];
  }

  /** A file's piece starts with its heading. */
  lemma HeadingStartsPart(f: FileEntry)
    ensures Heading(f) <= DiffPart(f)
  {
  }

  /** The digest is empty exactly when there are no files: every file's
      heading starts with a non-blank dash, so nothing with a file strips to
      nothing. */
  lemma DiffEmptyIff(files: seq<FileEntry>, maxChars: int)
    ensures UnifiedDiff(files, maxChars) == "" <==> files == []
  {
    if files != [] {
      var parts := DiffParts(files);
      DiffPartsAt(files, 0);
      JoinFirst(parts, "\n");
      var s := Join(parts, "\n");
      assert s[0] == parts[0][0] == '-';
      StripNonEmpty(s, 0);
      assert Combined(files) != "";
      assert |TruncationMarker| > 0;
    }
  }

  /** With a non-negative limit the digest is at most `maxChars` characters
      plus the marker; when cut, it is the first `maxChars` characters of the
      combined text followed by the marker, and otherwise the combined text
      itself. */
  lemma DiffBound(files: seq<FileEntry>, maxChars: nat)
    ensures var r := UnifiedDiff(files, maxChars);
            && |r| <= maxChars + |TruncationMarker|
            && (|Combined(files)| > maxChars ==>
                  |r| == maxChars + |TruncationMarker|
                  && (forall i :: 0 <= i < maxChars ==> r[i] == Combined(files)[i])
                  && r[maxChars..] == TruncationMarker)
            && (|Combined(files)| <= maxChars ==> r == Combined(files))
  {
  }

  /** A digest that was not cut holds every file's heading, has no blank at
      either end, and lists the files in order: file `i`'s heading comes before
      file `j`'s. */
  lemma {:induction false} DiffHeadingsInOrder(files: seq<FileEntry>, maxChars: int, i: nat, j: nat)
    requires i < j < |files| && |Combined(files)| <= maxChars
    ensures var r := UnifiedDiff(files, maxChars);
            && Trimmed(r)
            && exists a, b :: a < b && OccursAt(Heading(files[i]), r, a) && OccursAt(Heading(files[j]), r, b)
  {
    DiffPartsAt(files, i);
    DiffPartsAt(files, j);
    HeadingTrimmed(files[i]);
    HeadingTrimmed(files[j]);
    HeadingStartsPart(files[i]);
    HeadingStartsPart(files[j]);
    JoinedInOrder(DiffParts(files), "\n", i, j, Heading(files[i]), Heading(files[j]));
    StripSpec(Join(DiffParts(files), "\n"));
    DiffEmptyIff(files, maxChars);
  }

  // ---------------------------------------------------------------------------
  // build_file_summaries
  // ---------------------------------------------------------------------------

  /** The status lowercased, missing or empty as "", with "added" shown as
      "NEW FILE". */
  function StatusTag(status: Option<string>): string {
    var s := Lower(OrEmpty(status));
    if s == "added" then "NEW FILE" else s
  }

  function SummaryLine(f: FileEntry): string {
    "- " + f.filename + " (" + StatusTag(f.status) + "; additions=" + IntToString(f.additions)
    + ", deletions=" + IntToString(f.deletions) + ")"
  }

  function SummaryLines(files: seq<FileEntry>): (lines: seq<string>)
    ensures |lines| == |files|
  {
    if files == [] then [] else SummaryLines(files[..|files| - 1]) + [SummaryLine(files[|files| - 1])]
  }

  /** One line per file, in file order. */
  lemma {:induction false} SummaryLinesAt(files: seq<FileEntry>, i: nat)
    requires i < |files|
    ensures SummaryLines(files)[i] == SummaryLine(files[i])
  {
    if i < |files| - 1 {
      SummaryLinesAt(files[..|files| - 1], i);
    }
  }

  /** What `build_file_summaries(files)` returns. */
  function FileSummaries(files: seq<FileEntry>): string {
    if files == [] then "" else Join(SummaryLines(files), "\n")
  }

  /** `build_file_summaries`: one line per file appended in a loop, then the
      join. */
  method BuildFileSummaries(files: seq<FileEntry>) returns (r: string)
    ensures r == FileSummaries(files)
  {
    if files == [] {
      return "";
    }
    var lines: seq<string> := [];
    var i := 0;
    while i < |files|
      invariant 0 <= i <= |files|
      invariant lines == SummaryLines(files[..i])
    {
      SummaryLinesSnoc(files, i);
      lines := lines + [SummaryLine(files[i])];
      i := i + 1;
    }
    assert files[..|files|] == files;
    return Join(lines, "\n");
  }

  /** One more file, one more line at the end. */
  lemma SummaryLinesSnoc(files: seq<FileEntry>, i: nat)
    requires i < |files|
    ensures SummaryLines(files[..i + 1]) == SummaryLines(files[..i]) + [SummaryLine(files[i])]
  {
    assert files[..i + 1][..i] == files[..i];
    assert files[..i + 1][i] == files[i];
  }

  /** The tag is "NEW FILE" exactly when the lowercased status is "added"
      (a lowercased status never reads "NEW FILE", which has capitals), and is
      the lowercased status otherwise. */
  lemma TagSpec(status: Option<string>)
    ensures StatusTag(status) == "NEW FILE" <==> Lower(OrEmpty(status)) == "added"
    ensures Lower(OrEmpty(status)) != "added" ==> StatusTag(status) == Lower(OrEmpty(status))
  {
  }

  /** `str(i)` has no line break. */
  lemma IntToStringOneLine(i: int)
    ensures '\n' !in IntToString(i)
  {
  }

  /** A status without line breaks gives a tag without line breaks. */
  lemma TagOneLine(status: Option<string>)
    requires '\n' !in OrEmpty(status)
    ensures '\n' !in StatusTag(status)
  {
  }

  /** A file's summary line has no line break when its name and status have
      none. */
  lemma SummaryLineOneLine(f: FileEntry)
    requires '\n' !in f.filename && '\n' !in OrEmpty(f.status)
    ensures '\n' !in SummaryLine(f)
  {
    TagOneLine(f.status);
    IntToStringOneLine(f.additions);
    IntToStringOneLine(f.deletions);
  }

  /** With no line break in the names and statuses, the summary has exactly
      one line per file: splitting it at line breaks gives back each file's
      line, in order. */
  lemma SummaryOneLinePerFile(files: seq<FileEntry>)
    requires files != []
    requires forall i :: 0 <= i < |files| ==> '\n' !in files[i].filename && '\n' !in OrEmpty(files[i].status)
    ensures Split(FileSummaries(files), '\n') == SummaryLines(files)
  {
    var lines := SummaryLines(files);
    forall i | 0 <= i < |lines| ensures '\n' !in lines[i] {
      SummaryLinesAt(files, i);
      SummaryLineOneLine(files[i]);
    }
    SplitJoin(lines, '\n');
  }

  // ---------------------------------------------------------------------------
  // extract_linked_issue_tokens: the expression `#\d+|[A-Z]{2,}-\d+` scanned
  // by hand. `\d` is read as an ASCII digit.
  // ---------------------------------------------------------------------------

  /** The length of the run of digits starting at `i`. */
  function DigitRun(s: string, i: nat): (n: nat)
    requires i <= |s|
    ensures i + n <= |s|
    decreases |s| - i
  {
    if i < |s| && IsDigit(s[i]) then 1 + DigitRun(s, i + 1) else 0
  }

  /** The digit run is all digits and stops at the end or before a
      non-digit. */
  lemma {:induction false} DigitRunSpec(s: string, i: nat)
    requires i <= |s|
    ensures forall k :: i <= k < i + DigitRun(s, i) ==> IsDigit(s[k])
    ensures i + DigitRun(s, i) == |s| || !IsDigit(s[i + DigitRun(s, i)])
    decreases |s| - i
  {
    if i < |s| && IsDigit(s[i]) {
      DigitRunSpec(s, i + 1);
    }
  }

  /** The length of the run of capital letters starting at `i`. */
  function UpperRun(s: string, i: nat): (n: nat)
    requires i <= |s|
    ensures i + n <= |s|
    decreases |s| - i
  {
    if i < |s| && IsUpper(s[i]) then 1 + UpperRun(s, i + 1) else 0
  }

  /** The capital run is all capitals and stops at the end or before another
      character. */
  lemma {:induction false} UpperRunSpec(s: string, i: nat)
    requires i <= |s|
    ensures forall k :: i <= k < i + UpperRun(s, i) ==> IsUpper(s[k])
    ensures i + UpperRun(s, i) == |s| || !IsUpper(s[i + UpperRun(s, i)])
    decreases |s| - i
  {
    if i < |s| && IsUpper(s[i]) {
      UpperRunSpec(s, i + 1);
    }
  }

  /** The length of the match the expression makes at `i`, 0 for none. Both
      repetitions are greedy; giving back capitals never helps, because what
      follows a shorter run of capitals is another capital and not a dash. */
  function MatchAt(s: string, i: nat): nat
    requires i <= |s|
  {
    if i < |s| && s[i] == '#' && DigitRun(s, i + 1) > 0 then 1 + DigitRun(s, i + 1)
    else
      var u := UpperRun(s, i);
      if u >= 2 && i + u < |s| && s[i + u] == '-' && DigitRun(s, i + u + 1) > 0 then u + 1 + DigitRun(s, i + u + 1)
      else 0
  }

  /** `t` is two or more capitals, a dash, and one or more digits, with the
      dash at `u`. */
  predicate KeyShape(t: string, u: nat) {
    2 <= u && u + 2 <= |t| && t[u] == '-'
    && (forall k :: 0 <= k < u ==> IsUpper(t[k]))
    && (forall k :: u < k < |t| ==> IsDigit(t[k]))
  }

  /** A whole token: `#` and digits, or an issue key such as `ABC-123`. */
  ghost predicate IsToken(t: string) {
    (2 <= |t| && t[0] == '#' && forall k :: 0 < k < |t| ==> IsDigit(t[k]))
    || exists u :: KeyShape(t, u)
  }

  /** A match of the expression at `i` is a whole token that stops before a
      digit. */
  lemma MatchIsToken(s: string, i: nat)
    requires i <= |s| && MatchAt(s, i) > 0
    ensures IsToken(s[i..i + MatchAt(s, i)])
    ensures i + MatchAt(s, i) == |s| || !IsDigit(s[i + MatchAt(s, i)])
  {
    var t := s[i..i + MatchAt(s, i)];
    if i < |s| && s[i] == '#' && DigitRun(s, i + 1) > 0 {
      DigitRunSpec(s, i + 1);
    } else {
      var u := UpperRun(s, i);
      UpperRunSpec(s, i);
      DigitRunSpec(s, i + u + 1);
      assert KeyShape(t, u);
    }
  }

  /** A whole token at `i` that stops before a digit is exactly the match
      there: the expression finds nothing shorter and nothing longer. */
  lemma TokenIsMatch(s: string, i: nat, j: nat)
    requires i <= j <= |s| && IsToken(s[i..j]) && (j == |s| || !IsDigit(s[j]))
    ensures MatchAt(s, i) == j - i
  {
    var t := s[i..j];
    if t[0] == '#' {
      HashTokenIsMatch(s, i, j);
    } else {
      var u :| KeyShape(t, u);
      KeyTokenIsMatch(s, i, j, u);
    }
  }

  /** The `#` form of `TokenIsMatch`. */
  lemma HashTokenIsMatch(s: string, i: nat, j: nat)
    requires i + 2 <= j <= |s| && s[i] == '#' && (j == |s| || !IsDigit(s[j]))
    requires forall k :: 0 < k < j - i ==> IsDigit(s[i..j][k])
    ensures MatchAt(s, i) == j - i
  {
    forall k | i + 1 <= k < j ensures IsDigit(s[k]) {
      assert s[k] == s[i..j][k - i];
    }
    DigitRunIs(s, i + 1, j);
  }

  /** The issue-key form of `TokenIsMatch`. */
  lemma KeyTokenIsMatch(s: string, i: nat, j: nat, u: nat)
    requires i <= j <= |s| && KeyShape(s[i..j], u) && (j == |s| || !IsDigit(s[j]))
    ensures MatchAt(s, i) == j - i
  {
    var t := s[i..j];
    forall k | i <= k < i + u ensures IsUpper(s[k]) {
      assert s[k] == t[k - i];
    }
    forall k | i + u + 1 <= k < j ensures IsDigit(s[k]) {
      assert s[k] == t[k - i];
    }
    assert s[i] == t[0] && s[i + u] == t[u] == '-';
    UpperRunIs(s, i, i + u);
    DigitRunIs(s, i + u + 1, j);
  }

  /** A run of digits from `i` to `j` that stops there is the digit run. */
  lemma {:induction false} DigitRunIs(s: string, i: nat, j: nat)
    requires i <= j <= |s| && (forall k :: i <= k < j ==> IsDigit(s[k])) && (j == |s| || !IsDigit(s[j]))
    ensures DigitRun(s, i) == j - i
    decreases j - i
  {
    if i < j {
      DigitRunIs(s, i + 1, j);
    }
  }

  /** A run of capitals from `i` to `j` that stops there is the capital run. */
  lemma {:induction false} UpperRunIs(s: string, i: nat, j: nat)
    requires i <= j <= |s| && (forall k :: i <= k < j ==> IsUpper(s[k])) && (j == |s| || !IsUpper(s[j]))
    ensures UpperRun(s, i) == j - i
    decreases j - i
  {
    if i < j {
      UpperRunIs(s, i + 1, j);
    }
  }

  /** `re.findall` from `i`: a match is taken whole and the search resumes
      after it; with no match the search moves one character on. */
  function ScanFrom(s: string, i: nat): seq<string>
    requires i <= |s|
    decreases |s| - i
  {
    if i == |s| then []
    else
      var n := MatchAt(s, i);
      if n > 0 then [s[i..i + n]] + ScanFrom(s, i + n) else ScanFrom(s, i + 1)
  }

  function FindTokens(s: string): seq<string> {
    ScanFrom(s, 0)
  }

  /** What `extract_linked_issue_tokens(body)` returns. */
  function LinkedIssues(body: Option<string>): string {
    if body.None? || body.value == "" then "none"
    else
      var tokens := FindTokens(body.value);
      if tokens == [] then "none" else Join(tokens, ", ")
  }

  /** Every token found is a whole token that occurs in the text. */
  lemma {:induction false} ScanSound(s: string, i: nat, n: nat)
    requires i <= |s| && n < |ScanFrom(s, i)|
    ensures IsToken(ScanFrom(s, i)[n]) && Occurs(ScanFrom(s, i)[n], s)
    decreases |s| - i
  {
    var m := MatchAt(s, i);
    if i < |s| && m > 0 {
      if n == 0 {
        MatchIsToken(s, i);
        assert OccursAt(s[i..i + m], s, i);
      } else {
        ScanSound(s, i + m, n - 1);
      }
    } else if i < |s| {
      ScanSound(s, i + 1, n);
    }
  }

  /** The search from `i` finds nothing exactly when the expression matches
      nowhere from `i` on. */
  lemma {:induction false} ScanEmptyIff(s: string, i: nat)
    requires i <= |s|
    ensures ScanFrom(s, i) == [] <==> forall k :: i <= k <= |s| ==> MatchAt(s, k) == 0
    decreases |s| - i
  {
    if i < |s| {
      ScanEmptyIff(s, i + 1);
    }
  }

  /** Inside a match, after its first character, there is no `#`, and a
      capital has a capital before it. */
  lemma InsideMatch(s: string, j: nat, p: nat)
    requires j < p < |s| && p < j + MatchAt(s, j)
    ensures s[p] != '#'
    ensures IsUpper(s[p]) ==> IsUpper(s[p - 1])
  {
    if s[j] == '#' && DigitRun(s, j + 1) > 0 {
      DigitRunSpec(s, j + 1);
    } else {
      UpperRunSpec(s, j);
      DigitRunSpec(s, j + UpperRun(s, j) + 1);
    }
  }

  /** One step of the search. */
  lemma ScanStep(s: string, j: nat)
    requires j < |s|
    ensures MatchAt(s, j) > 0 ==> ScanFrom(s, j) == [s[j..j + MatchAt(s, j)]] + ScanFrom(s, j + MatchAt(s, j))
    ensures MatchAt(s, j) == 0 ==> ScanFrom(s, j) == ScanFrom(s, j + 1)
  {
  }

  /** Where the search goes after `j`: past the match there, or one on. */
  function NextStart(s: string, j: nat): nat
    requires j < |s|
  {
    if MatchAt(s, j) > 0 then j + MatchAt(s, j) else j + 1
  }

  /** What the search finds after a step it also finds from before it. */
  lemma ScanKeeps(s: string, j: nat, x: string)
    requires j < |s| && NextStart(s, j) <= |s| && x in ScanFrom(s, NextStart(s, j))
    ensures x in ScanFrom(s, j)
  {
    ScanStep(s, j);
  }

  /** A match starts with `#` or a capital. */
  lemma MatchStart(s: string, i: nat)
    requires i < |s| && MatchAt(s, i) > 0
    ensures s[i] == '#' || IsUpper(s[i])
  {
  }

  /** A match the scan cannot have passed over is reported: one starting with
      `#`, at the start of the text, or after a character that is not a
      capital. (A match after a capital lies inside a longer match that starts
      earlier.) */
  lemma {:induction false} TokenFound(s: string, j: nat, i: nat)
    requires j <= i < |s| && MatchAt(s, i) > 0
    requires s[i] == '#' || i == 0 || !IsUpper(s[i - 1])
    ensures s[i..i + MatchAt(s, i)] in ScanFrom(s, j)
    decreases i - j
  {
    if j == i {
      ScanStep(s, j);
    } else {
      var n := MatchAt(s, j);
      if n > 0 && j + n > i {
        InsideMatch(s, j, i);
        MatchStart(s, i);
        assert false;
      }
      TokenFound(s, NextStart(s, j), i);
      ScanKeeps(s, j, s[i..i + MatchAt(s, i)]);
    }
  }

  /** "none" comes back exactly when the expression matches nowhere in the
      body (a joined list of tokens starts with `#` or a capital, never with
      "n"). */
  lemma LinkedNoneIff(body: Option<string>)
    ensures LinkedIssues(body) == "none" <==>
            (body.None? || forall k :: 0 <= k <= |body.value| ==> MatchAt(body.value, k) == 0)
  {
    if body.Some? {
      var s := body.value;
      ScanEmptyIff(s, 0);
      var tokens := FindTokens(s);
      if tokens != [] {
        ScanSound(s, 0, 0);
        JoinFirst(tokens, ", ");
        var t := tokens[0];
        assert t[0] == '#' || IsUpper(t[0]) by {
          if t[0] != '#' {
            var u :| KeyShape(t, u);
          }
        }
        assert Join(tokens, ", ")[0] == t[0];
      }
    }
  }

  /** An OK body: the tokens are the matches, joined in order. */
  lemma LinkedJoins(body: string)
    requires FindTokens(body) != []
    ensures LinkedIssues(Some(body)) == Join(FindTokens(body), ", ")
  {
  }

  // ---------------------------------------------------------------------------
  // Prompt context and the choice of change signal
  // ---------------------------------------------------------------------------

  /** What every prompt is built from. */
  datatype PrContext = PrContext(
    title: string,
    branch: string,
    baseBranch: string,
    labels: string,
    linked: string,
    diff: string,
    summaries: string,
    commits: string)

  /** The commit messages joined by newlines and stripped. */
  function CommitText(messages: seq<string>): string {
    Strip(Join(messages, "\n"))
  }

  /** The context as the scripts gather it: the title or "", the linked
      issues from the body, the digest and the summaries only when there are
      files, and the commit text. */
  function ContextOf(title: Option<string>, branch: string, baseBranch: string, labels: string,
                     body: Option<string>, files: seq<FileEntry>, messages: seq<string>, maxChars: int): PrContext
  {
    PrContext(OrEmpty(title), branch, baseBranch, labels, LinkedIssues(body),
              if |files| > 0 then UnifiedDiff(files, maxChars) else "",
              if |files| > 0 then FileSummaries(files) else "",
              CommitText(messages))
  }

  /** The fill-in template used when a pull request has no change signal at
      all; both description scripts carry the same text. */
  const DescriptionTemplate :=
      "**Purpose**\n"
      + "- _[Describe the problem this PR solves and why now.]_\n"
      + "\n"
      + "**Changes**\n"
      + "- _[List key modules/files impacted and the nature of changes (additions/deletions/refactors).]_\n"
      + "\n"
      + "**Impact**\n"
      + "- _[Risks, performance, security, infra implications; migrations/rollout notes.]_\n"
      + "\n"
      + "**Testing**\n"
      + "- _[Steps to test locally/CI, commands, sample payloads; add screenshots as needed.]_"

  /** The opening lines of the prompts: one for reviews and one for
      descriptions. Each ends in a full stop before its line break. */
  const ReviewerRole := "You are a senior software engineer performing a code review.\n"
  const WriterRole := "You are an expert software engineer and technical writer.\n"

  lemma RolesEndInFullStop()
    ensures |ReviewerRole| >= 2 && ReviewerRole[|ReviewerRole| - 2] == '.'
    ensures |WriterRole| >= 2 && WriterRole[|WriterRole| - 2] == '.'
  {}

  /** The pull-request metadata lines shared by the prompts; `arrow` is the
      character written between the head and the base branch. */
  function ContextLines(ctx: PrContext, arrow: string): string {
    "- Title: " + ctx.title + "\n- Branch: " + ctx.branch + " " + arrow + " Base: " + ctx.baseBranch
    + "\n- Labels: " + ctx.labels + "\n- Linked issues: " + ctx.linked
  }

  /** Which change signal a prompt is built on: the digest when there is one,
      else the summaries, else the commit messages, else none. */
  datatype Signal = FromDiff | FromSummaries | FromCommits | NoSignal

  function SignalOf(ctx: PrContext): (s: Signal)
    ensures s == FromDiff <==> ctx.diff != ""
    ensures s == FromSummaries <==> ctx.diff == "" && ctx.summaries != ""
    ensures s == FromCommits <==> ctx.diff == "" && ctx.summaries == "" && ctx.commits != ""
  {
    if ctx.diff != "" then FromDiff
    else if ctx.summaries != "" then FromSummaries
    else if ctx.commits != "" then FromCommits
    else NoSignal
  }

  /** The summary fallback never fires on a gathered context: with files the
      digest is never empty, and without files the summaries are. */
  lemma SummariesNeverChosen(title: Option<string>, branch: string, baseBranch: string, labels: string,
                             body: Option<string>, files: seq<FileEntry>, messages: seq<string>, maxChars: int)
    ensures SignalOf(ContextOf(title, branch, baseBranch, labels, body, files, messages, maxChars)) != FromSummaries
    ensures SignalOf(ContextOf(title, branch, baseBranch, labels, body, files, messages, maxChars)) == FromDiff <==> files != []
  {
    DiffEmptyIff(files, maxChars);
  }
}
